/** The odds translator: the market lists of the bookmakers become one row per oddID, in the order in which the
    ids first appear. The table is the dict the translator fills; the functions say what each step leaves in it. */
module OddsTranslate {
  import opened Wrappers
  import opened Text
  import opened Decimals
  import opened Prices
  import opened Sorting
  import opened Taxonomy

  // ---- what the feed ships ----

  // A field that is absent, null or "" is Missing; Junk is present but not a number.
  datatype Field = Missing | Junk | Number(value: PlainDecimal)

  datatype Entry = Entry(hdp: Field, home: Field, away: Field, draw: Field, over: Field, under: Field)

  // NotADict stands for a market of another JSON type.
  datatype BookMarket = NotADict | BookMarket(name: string, entries: seq<Entry>)

  datatype Book = Book(name: string, markets: Option<seq<BookMarket>>)

  // ---- what it becomes ----

  // The four line keys of an odd in lookup order; "" is an absent key.
  datatype Lines = Lines(fair: string, book: string, openFair: string, openBook: string) {
    function First(): string {
      if fair != "" then fair else if book != "" then book else if openFair != "" then openFair else openBook
    }
  }
  const NO_LINES := Lines("", "", "", "")

  datatype BookQuote = BookQuote(odds: int, spread: string, overUnder: string)

  datatype OddRow = OddRow(
    fairOdds: Option<int>,
    bookOdds: Option<int>,
    spread: Lines,
    overUnder: Lines,
    byBook: map<string, BookQuote>,
    score: Option<real>)

  // A dict: its keys in insertion order, and its rows.
  datatype Odds = Odds(order: seq<string>, rows: map<string, OddRow>)
  const NO_ODDS := Odds([], map[])

  // ---- picking the main line ----

  function Line(row: Entry): Option<PlainDecimal> {
    match row.hdp
    case Number(v) => Some(v)
    case _ => None
  }

  function Abs(x: real): real {
    if x < 0.0 then -x else x
  }

  // Rows without a line rank last.
  predicate NearerToPick(a: Entry, b: Entry) {
    Line(a).Some? && (Line(b).Some? ==> Abs(Value(Line(a).value)) < Abs(Value(Line(b).value)))
  }

  function PickHandicap(entries: seq<Entry>): (row: Entry)
    requires entries != []
    ensures row in entries
  {
    if |entries| == 1 then entries[0]
    else
      var best, last := PickHandicap(entries[..|entries| - 1]), entries[|entries| - 1];
      if NearerToPick(last, best) then last else best
  }

  const CANONICAL_TOTALS := map[
    "BASEBALL" := 8.5, "BASKETBALL" := 220.5, "FOOTBALL" := 45.5,
    "HOCKEY" := 5.5, "SOCCER" := 2.5, "TENNIS" := 22.5]

  function WithLine(entries: seq<Entry>): (valid: seq<Entry>)
    ensures forall e <- valid :: e in entries && Line(e).Some?
    ensures forall e <- entries :: Line(e).Some? ==> e in valid
  {
    if entries == [] then []
    else
      var front, last := WithLine(entries[..|entries| - 1]), entries[|entries| - 1];
      assert entries == entries[..|entries| - 1] + [last];
      if Line(last).Some? then front + [last] else front
  }

  function LineValue(row: Entry): real {
    match Line(row)
    case Some(v) => Value(v)
    case None => 0.0
  }

  predicate LowerLine(a: Entry, b: Entry) {
    LineValue(a) <= LineValue(b)
  }

  function Distance(row: Entry, target: real): real {
    Abs(LineValue(row) - target)
  }

  function PickNearest(valid: seq<Entry>, target: real): (row: Entry)
    requires valid != []
    ensures row in valid
  {
    if |valid| == 1 then valid[0]
    else
      var best, last := PickNearest(valid[..|valid| - 1], target), valid[|valid| - 1];
      if Distance(last, target) < Distance(best, target) then last else best
  }

  function PickTotal(entries: seq<Entry>, sport: string): Option<Entry> {
    var valid := WithLine(entries);
    if valid == [] then None
    else if sport in CANONICAL_TOTALS then Some(PickNearest(valid, CANONICAL_TOTALS[sport]))
    else Some(Sort(LowerLine, valid)[|valid| / 2])
  }

  // ---- filling the table ----

  function ParseOdds(price: Field): Option<real> {
    match price
    case Number(v) => if Value(v) <= 1.0 then None else Some(Value(v))
    case _ => None
  }

  function LineText(line: Option<PlainDecimal>): string {
    match line
    case Some(d) => Render(d)
    case None => ""
  }

  function QuoteAdded(o: Odds, id: string, price: Field, book: string,
                        spread: Option<PlainDecimal>, overUnder: Option<PlainDecimal>): Odds
  {
    match ParseOdds(price)
    case None => o
    case Some(d) =>
      var american := DecimalToAmerican(d);
      if american == 0 then o
      else
        var row := if id in o.rows then o.rows[id] else OddRow(None, None, NO_LINES, NO_LINES, map[], None);
        var fair := if row.fairOdds.None? then row.(fairOdds := Some(american), bookOdds := Some(american)) else row;
        var quoted := fair.(byBook := fair.byBook[book := BookQuote(american, LineText(spread), LineText(overUnder))]);
        Odds(if id in o.rows then o.order else o.order + [id], o.rows[id := quoted])
  }

  // Only written when the key is not there yet.
  function SetFairSpread(o: Odds, id: string, line: PlainDecimal): Odds {
    if id !in o.rows || o.rows[id].spread.fair != "" then o
    else o.(rows := o.rows[id := o.rows[id].(spread := o.rows[id].spread.(fair := Render(line)))])
  }

  function SetFairOverUnder(o: Odds, id: string, line: PlainDecimal): Odds {
    if id !in o.rows || o.rows[id].overUnder.fair != "" then o
    else o.(rows := o.rows[id := o.rows[id].(overUnder := o.rows[id].overUnder.(fair := Render(line)))])
  }

  function MlId(stat: string, betType: string, side: string): string {
    OddId(Parts(stat, side, "game", betType, side))
  }

  function MlSideAdded(o: Odds, stat: string, betType: string, side: string, price: Field, book: string): Odds {
    if price.Missing? then o else QuoteAdded(o, MlId(stat, betType, side), price, book, None, None)
  }

  // A draw price, parsable or not, makes the market three-way.
  function MlAdded(o: Odds, row: Entry, stat: string, book: string): Odds {
    var betType := if row.draw.Missing? then "ml" else "ml3way";
    var home := MlSideAdded(o, stat, betType, "home", row.home, book);
    var away := MlSideAdded(home, stat, betType, "away", row.away, book);
    MlSideAdded(away, stat, "ml3way", "draw", row.draw, book)
  }

  function SpreadId(stat: string, side: string): string {
    OddId(Parts(stat, side, "game", "sp", side))
  }

  function SpreadSideAdded(o: Odds, stat: string, side: string, price: Field, book: string, line: PlainDecimal): Odds {
    if price.Missing? then o
    else SetFairSpread(QuoteAdded(o, SpreadId(stat, side), price, book, Some(line), None), SpreadId(stat, side), line)
  }

  function HandicapAdded(o: Odds, row: Entry, stat: string, book: string): Odds {
    match Line(row)
    case None => o
    case Some(hdp) =>
      var home := SpreadSideAdded(o, stat, "home", row.home, book, hdp);
      SpreadSideAdded(home, stat, "away", row.away, book, Negated(hdp))
  }

  function Negated(d: PlainDecimal): (r: PlainDecimal)
    ensures Value(r) == -Value(d)
  {
    NegateNegates(d);
    Negate(d)
  }

  function TotalId(stat: string, side: string): string {
    OddId(Parts(stat, "all", "game", "ou", side))
  }

  function TotalSideAdded(o: Odds, stat: string, side: string, price: Field, book: string, line: PlainDecimal): Odds {
    if price.Missing? then o
    else SetFairOverUnder(QuoteAdded(o, TotalId(stat, side), price, book, None, Some(line)), TotalId(stat, side), line)
  }

  function TotalsAdded(o: Odds, row: Entry, stat: string, book: string): Odds {
    match Line(row)
    case None => o
    case Some(line) =>
      var over := TotalSideAdded(o, stat, "over", row.over, book, line);
      TotalSideAdded(over, stat, "under", row.under, book, line)
  }

  const STATS := map[
    "BASEBALL" := "runs", "BASKETBALL" := "points", "FOOTBALL" := "points", "GAELIC_FOOTBALL" := "points",
    "HOCKEY" := "goals", "SOCCER" := "goals", "TENNIS" := "points", "VOLLEYBALL" := "points"]

  function StatOf(sport: string): (stat: string)
    ensures stat in {"runs", "points", "goals"}
  {
    if sport in STATS then STATS[sport] else "points"
  }

  const BOOK_IDS := map[
    "DraftKings" := "draftkings", "FanDuel" := "fanduel", "Bet365" := "bet365", "Pinnacle" := "pinnacle"]

  function BookId(name: string): string {
    if name in BOOK_IDS then BOOK_IDS[name] else Lower(name)
  }

  function MarketAdded(o: Odds, market: BookMarket, sport: string, book: string): Odds {
    if market.NotADict? || market.entries == [] then o
    else if market.name == "ML" then MlAdded(o, market.entries[0], StatOf(sport), book)
    else if market.name == "Asian Handicap" || market.name == "Spread" then
      HandicapAdded(o, PickHandicap(market.entries), StatOf(sport), book)
    else if market.name == "Totals" then
      match PickTotal(market.entries, sport)
      case None => o
      case Some(row) => TotalsAdded(o, row, StatOf(sport), book)
    else o
  }

  function MarketsAdded(o: Odds, markets: seq<BookMarket>, sport: string, book: string): Odds {
    if markets == [] then o
    else MarketAdded(MarketsAdded(o, markets[..|markets| - 1], sport, book), markets[|markets| - 1], sport, book)
  }

  predicate Consumed(book: Book) {
    book.markets.Some? && !Contains(Lower(book.name), "(no latency)")
  }

  function Translate(books: seq<Book>, sport: string): Odds {
    if books == [] then NO_ODDS
    else
      var before, last := Translate(books[..|books| - 1], sport), books[|books| - 1];
      if Consumed(last) then MarketsAdded(before, last.markets.value, sport, BookId(last.name)) else before
  }

  // ---- the translator ----

  class OddsTable {
    var order: seq<string>
    var rows: map<string, OddRow>

    constructor ()
      ensures Contents() == NO_ODDS
    {
      order, rows := [], map[];
    }

    function Contents(): Odds
      reads this
    {
      Odds(order, rows)
    }

    method AddBookQuote(id: string, price: Field, book: string, spread: Option<PlainDecimal>, overUnder: Option<PlainDecimal>)
      modifies this
      ensures Contents() == QuoteAdded(old(Contents()), id, price, book, spread, overUnder)
    {
      var decimalOdds := ParseOdds(price);
      if decimalOdds.None? { return; }
      var american := DecimalToAmerican(decimalOdds.value);
      if american == 0 { return; }
      if id !in rows {
        order := order + [id];
        rows := rows[id := OddRow(None, None, NO_LINES, NO_LINES, map[], None)];
      }
      var row := rows[id];
      if row.fairOdds.None? {
        row := row.(fairOdds := Some(american));
        row := row.(bookOdds := Some(american));
      }
      row := row.(byBook := row.byBook[book := BookQuote(american, LineText(spread), LineText(overUnder))]);
      rows := rows[id := row];
    }

    method SetMarketLine(id: string, isSpread: bool, line: PlainDecimal)
      modifies this
      ensures Contents() ==
        if isSpread then SetFairSpread(old(Contents()), id, line) else SetFairOverUnder(old(Contents()), id, line)
    {
      if id !in rows { return; }
      var row := rows[id];
      if isSpread {
        if row.spread.fair == "" { rows := rows[id := row.(spread := row.spread.(fair := Render(line)))]; }
      } else {
        if row.overUnder.fair == "" { rows := rows[id := row.(overUnder := row.overUnder.(fair := Render(line)))]; }
      }
    }

    method AccumulateMl(row: Entry, stat: string, book: string)
      modifies this
      ensures Contents() == MlAdded(old(Contents()), row, stat, book)
    {
      var hasDraw := !row.draw.Missing?;
      var betType := if hasDraw then "ml3way" else "ml";
      if !row.home.Missing? { AddBookQuote(MlId(stat, betType, "home"), row.home, book, None, None); }
      if !row.away.Missing? { AddBookQuote(MlId(stat, betType, "away"), row.away, book, None, None); }
      if hasDraw { AddBookQuote(MlId(stat, "ml3way", "draw"), row.draw, book, None, None); }
    }

    method AccumulateHandicap(row: Entry, stat: string, book: string)
      modifies this
      ensures Contents() == HandicapAdded(old(Contents()), row, stat, book)
    {
      var hdp := Line(row);
      if hdp.None? { return; }
      if !row.home.Missing? {
        AddBookQuote(SpreadId(stat, "home"), row.home, book, hdp, None);
        SetMarketLine(SpreadId(stat, "home"), true, hdp.value);
      }
      if !row.away.Missing? {
        AddBookQuote(SpreadId(stat, "away"), row.away, book, Some(Negated(hdp.value)), None);
        SetMarketLine(SpreadId(stat, "away"), true, Negated(hdp.value));
      }
    }

    method AccumulateTotals(row: Entry, stat: string, book: string)
      modifies this
      ensures Contents() == TotalsAdded(old(Contents()), row, stat, book)
    {
      var line := Line(row);
      if line.None? { return; }
      if !row.over.Missing? {
        AddBookQuote(TotalId(stat, "over"), row.over, book, None, line);
        SetMarketLine(TotalId(stat, "over"), false, line.value);
      }
      if !row.under.Missing? {
        AddBookQuote(TotalId(stat, "under"), row.under, book, None, line);
        SetMarketLine(TotalId(stat, "under"), false, line.value);
      }
    }

    method TranslateBook(book: Book, sport: string)
      requires book.markets.Some?
      modifies this
      ensures Contents() == MarketsAdded(old(Contents()), book.markets.value, sport, BookId(book.name))
    {
      var markets, bookId, stat := book.markets.value, BookId(book.name), StatOf(sport);
      for i := 0 to |markets|
        invariant Contents() == MarketsAdded(old(Contents()), markets[..i], sport, bookId)
      {
        var market := markets[i];
        assert markets[..i + 1][..i] == markets[..i];
        if market.NotADict? || market.entries == [] { continue; }
        if market.name == "ML" {
          AccumulateMl(market.entries[0], stat, bookId);
        } else if market.name == "Asian Handicap" || market.name == "Spread" {
          AccumulateHandicap(PickHandicap(market.entries), stat, bookId);
        } else if market.name == "Totals" {
          var row := PickTotal(market.entries, sport);
          if row.None? { continue; }
          AccumulateTotals(row.value, stat, bookId);
        }
      }
      assert markets[..|markets|] == markets;
    }

    method TranslateOdds(books: seq<Book>, sport: string)
      requires Contents() == NO_ODDS
      modifies this
      ensures Contents() == Translate(books, sport)
    {
      for i := 0 to |books|
        invariant Contents() == Translate(books[..i], sport)
      {
        assert books[..i + 1][..i] == books[..i];
        if books[i].markets.None? { continue; }
        if Contains(Lower(books[i].name), "(no latency)") { continue; }
        TranslateBook(books[i], sport);
      }
      assert books[..|books|] == books;
    }
  }
}
