/** What the translated table holds, said without the table: the list of quotes the bookmakers make, in feed order.
    An odd carries the price and the line of its first quote, and for every book its last one. */
module OddsQuotes {
  import opened Wrappers
  import opened Text
  import opened Decimals
  import opened Prices
  import opened Sorting
  import opened Taxonomy
  import opened OddsTranslate

  datatype Quote = Quote(parts: Parts, price: real, book: string, line: Option<PlainDecimal>)

  function IdOf(q: Quote): string {
    OddId(q.parts)
  }

  function Offer(parts: Parts, price: Field, book: string, line: Option<PlainDecimal>): seq<Quote> {
    match ParseOdds(price)
    case Some(d) => [Quote(parts, d, book, line)]
    case None => []
  }

  function MlQuotes(row: Entry, stat: string, book: string): seq<Quote> {
    var betType := if row.draw.Missing? then "ml" else "ml3way";
    Offer(Parts(stat, "home", "game", betType, "home"), row.home, book, None)
    + Offer(Parts(stat, "away", "game", betType, "away"), row.away, book, None)
    + Offer(Parts(stat, "draw", "game", betType, "draw"), row.draw, book, None)
  }

  function HandicapQuotes(row: Entry, stat: string, book: string): seq<Quote> {
    match Line(row)
    case None => []
    case Some(hdp) =>
      Offer(Parts(stat, "home", "game", "sp", "home"), row.home, book, Some(hdp))
      + Offer(Parts(stat, "away", "game", "sp", "away"), row.away, book, Some(Negated(hdp)))
  }

  function TotalQuotes(row: Entry, stat: string, book: string): seq<Quote> {
    match Line(row)
    case None => []
    case Some(line) =>
      Offer(Parts(stat, "all", "game", "ou", "over"), row.over, book, Some(line))
      + Offer(Parts(stat, "all", "game", "ou", "under"), row.under, book, Some(line))
  }

  function MarketQuotes(market: BookMarket, sport: string, book: string): seq<Quote> {
    if market.NotADict? || market.entries == [] then []
    else if market.name == "ML" then MlQuotes(market.entries[0], StatOf(sport), book)
    else if market.name == "Asian Handicap" || market.name == "Spread" then
      HandicapQuotes(PickHandicap(market.entries), StatOf(sport), book)
    else if market.name == "Totals" && PickTotal(market.entries, sport).Some? then
      TotalQuotes(PickTotal(market.entries, sport).value, StatOf(sport), book)
    else []
  }

  function MarketsQuotes(markets: seq<BookMarket>, sport: string, book: string): seq<Quote> {
    if markets == [] then []
    else MarketsQuotes(markets[..|markets| - 1], sport, book) + MarketQuotes(markets[|markets| - 1], sport, book)
  }

  function QuotesOf(books: seq<Book>, sport: string): seq<Quote> {
    if books == [] then []
    else
      var before, last := QuotesOf(books[..|books| - 1], sport), books[|books| - 1];
      if Consumed(last) then before + MarketsQuotes(last.markets.value, sport, BookId(last.name)) else before
  }

  // ---- reading the list ----

  function First(qs: seq<Quote>, id: string): Option<Quote> {
    if qs == [] then None
    else
      var before, last := First(qs[..|qs| - 1], id), qs[|qs| - 1];
      if before.Some? then before else if IdOf(last) == id then Some(last) else None
  }

  function IdsOf(qs: seq<Quote>): (ids: seq<string>)
    ensures forall id :: id in ids <==> First(qs, id).Some?
    ensures forall i, j :: 0 <= i < j < |ids| ==> ids[i] != ids[j]
  {
    if qs == [] then []
    else
      var before, last := IdsOf(qs[..|qs| - 1]), IdOf(qs[|qs| - 1]);
      if last in before then before else before + [last]
  }

  function IsSpread(p: Parts): bool { p.betType == "sp" }

  function BookQuoteOf(q: Quote): BookQuote {
    BookQuote(DecimalToAmerican(q.price),
              if IsSpread(q.parts) then LineText(q.line) else "", if IsSpread(q.parts) then "" else LineText(q.line))
  }

  function ByBook(qs: seq<Quote>, id: string): map<string, BookQuote> {
    if qs == [] then map[]
    else
      var before, last := ByBook(qs[..|qs| - 1], id), qs[|qs| - 1];
      if IdOf(last) == id then before[last.book := BookQuoteOf(last)] else before
  }

  function RowFrom(qs: seq<Quote>, id: string): OddRow
    requires First(qs, id).Some?
  {
    var first := First(qs, id).value;
    var american := DecimalToAmerican(first.price);
    OddRow(Some(american), Some(american),
           if IsSpread(first.parts) then NO_LINES.(fair := LineText(first.line)) else NO_LINES,
           if IsSpread(first.parts) then NO_LINES else NO_LINES.(fair := LineText(first.line)),
           ByBook(qs, id), None)
  }

  ghost predicate Represents(o: Odds, qs: seq<Quote>) {
    && o.order == IdsOf(qs)
    && (forall id :: id in o.rows <==> First(qs, id).Some?)
    && (forall id <- o.rows :: o.rows[id] == RowFrom(qs, id))
  }

  // ---- the ids the translator makes ----

  predicate Shape(stat: string, p: Parts) {
    && p.stat == stat && p.period == "game"
    && ((p.betType in {"ml", "ml3way", "sp"} && p.entity == p.side && p.side in {"home", "away"})
        || (p.betType == "ml3way" && p.entity == "draw" && p.side == "draw")
        || (p.betType == "ou" && p.entity == "all" && p.side in {"over", "under"}))
  }

  predicate Regular(stat: string, q: Quote) {
    && Shape(stat, q.parts) && q.price > 1.0
    && (q.line.Some? <==> q.parts.betType == "sp" || q.parts.betType == "ou")
  }

  ghost predicate AllRegular(stat: string, qs: seq<Quote>) {
    forall q <- qs :: Regular(stat, q)
  }

  predicate Stat(stat: string) {
    stat in {"runs", "points", "goals"}
  }

  lemma ShapeReadsBack(stat: string, p: Parts)
    requires Stat(stat) && Shape(stat, p)
    ensures Free(Fields(p), '-') && ParseOddId(OddId(p)) == Some(p)
  {
    OddIdReadsBack(p);
  }

  lemma ShapesAreKeyed(stat: string, a: Parts, b: Parts)
    requires Stat(stat) && Shape(stat, a) && Shape(stat, b) && OddId(a) == OddId(b)
    ensures a == b
  {
    ShapeReadsBack(stat, a);
    ShapeReadsBack(stat, b);
  }

  lemma {:induction false} FirstIsMember(qs: seq<Quote>, id: string)
    ensures var f := First(qs, id); f.Some? ==> f.value in qs && IdOf(f.value) == id
  {
    if qs != [] { FirstIsMember(qs[..|qs| - 1], id); }
  }

  // A price above 1 always has an American form: the translator drops no such quote.
  lemma AmericanIsNotZero(d: real)
    requires d > 1.0
    ensures DecimalToAmerican(d) != 0
  {
    if d >= 2.0 { LongPrice(d); } else { ShortPrice(d); }
  }

  // ---- one quote ----

  lemma Appended(qs: seq<Quote>, q: Quote, id: string)
    ensures (qs + [q])[..|qs|] == qs
    ensures First(qs + [q], id) == if First(qs, id).Some? then First(qs, id) else if IdOf(q) == id then Some(q) else None
    ensures ByBook(qs + [q], id) == if IdOf(q) == id then ByBook(qs, id)[q.book := BookQuoteOf(q)] else ByBook(qs, id)
    ensures IdsOf(qs + [q]) == if IdOf(q) in IdsOf(qs) then IdsOf(qs) else IdsOf(qs) + [IdOf(q)]
  {
    assert (qs + [q])[..|qs|] == qs;
  }

  function Entered(o: Odds, q: Quote): Odds {
    var id, american, b := IdOf(q), DecimalToAmerican(q.price), BookQuoteOf(q);
    if id in o.rows then o.(rows := o.rows[id := o.rows[id].(byBook := o.rows[id].byBook[q.book := b])])
    else Odds(o.order + [id], o.rows[id := RowFrom([q], id)])
  }

  lemma EnteredRepresents(o: Odds, qs: seq<Quote>, q: Quote)
    requires Represents(o, qs)
    ensures Represents(Entered(o, q), qs + [q])
  {
    var id, r := IdOf(q), Entered(o, q);
    Appended(qs, q, id);
    forall k ensures k in r.rows <==> First(qs + [q], k).Some? {
      Appended(qs, q, k);
    }
    forall k | k in r.rows ensures r.rows[k] == RowFrom(qs + [q], k) {
      EnteredRow(o, qs, q, k);
    }
  }

  lemma EnteredRow(o: Odds, qs: seq<Quote>, q: Quote, k: string)
    requires Represents(o, qs) && k in Entered(o, q).rows
    ensures First(qs + [q], k).Some? && Entered(o, q).rows[k] == RowFrom(qs + [q], k)
  {
    Appended(qs, q, k);
    if k !in o.rows {
      NothingBefore(qs, k);
      assert First([q], k) == Some(q);
      assert ByBook([q], k) == map[q.book := BookQuoteOf(q)];
    }
  }

  lemma {:induction false} NothingBefore(qs: seq<Quote>, id: string)
    requires First(qs, id).None?
    ensures ByBook(qs, id) == map[]
  {
    if qs != [] { NothingBefore(qs[..|qs| - 1], id); }
  }

  ghost predicate Tabled(stat: string, o: Odds, qs: seq<Quote>) {
    Stat(stat) && AllRegular(stat, qs) && Represents(o, qs)
  }

  ghost predicate Ready(o: Odds, q: Quote) {
    IdOf(q) in o.rows ==> var row := o.rows[IdOf(q)];
      row.fairOdds.Some? && (q.line.Some? ==> if IsSpread(q.parts) then row.spread.fair != "" else row.overUnder.fair != "")
  }

  lemma Enters(stat: string, o: Odds, qs: seq<Quote>, q: Quote)
    requires Tabled(stat, o, qs) && Regular(stat, q)
    ensures Tabled(stat, Entered(o, q), qs + [q])
    ensures Ready(o, q)
  {
    EnteredRepresents(o, qs, q);
    if IdOf(q) in o.rows {
      FirstIsMember(qs, IdOf(q));
      ShapesAreKeyed(stat, First(qs, IdOf(q)).value.parts, q.parts);
    }
  }

  lemma Associative<T>(a: seq<T>, b: seq<T>, c: seq<T>)
    ensures a + (b + c) == (a + b) + c
  {
  }

  lemma MlSideStep(stat: string, o: Odds, qs: seq<Quote>, betType: string, side: string, price: Field, book: string)
    requires Tabled(stat, o, qs)
    requires (betType in {"ml", "ml3way"} && side in {"home", "away"}) || (betType == "ml3way" && side == "draw")
    ensures Tabled(stat, MlSideAdded(o, stat, betType, side, price, book),
                   qs + Offer(Parts(stat, side, "game", betType, side), price, book, None))
  {
    if ParseOdds(price).Some? {
      var q := Quote(Parts(stat, side, "game", betType, side), ParseOdds(price).value, book, None);
      Enters(stat, o, qs, q);
      QuoteEnters(o, q, price);
    } else {
      assert qs + [] == qs;
    }
  }

  // One quote after another: the book quote, then the line when it is not set yet.
  lemma QuoteEnters(o: Odds, q: Quote, price: Field)
    requires Ready(o, q) && ParseOdds(price) == Some(q.price) && q.price > 1.0
    ensures
      var spread, overUnder := if IsSpread(q.parts) then q.line else None, if IsSpread(q.parts) then None else q.line;
      var quoted := QuoteAdded(o, IdOf(q), price, q.book, spread, overUnder);
      Entered(o, q) == match q.line
        case None => quoted
        case Some(line) => if IsSpread(q.parts) then SetFairSpread(quoted, IdOf(q), line) else SetFairOverUnder(quoted, IdOf(q), line)
  {
    AmericanIsNotZero(q.price);
    if IdOf(q) !in o.rows {
      assert First([q], IdOf(q)) == Some(q);
      assert ByBook([q], IdOf(q)) == map[q.book := BookQuoteOf(q)];
      assert q.line.Some? ==> LineText(q.line) != "";
    }
  }

  /** The price an odd is first given sticks, and so does its place; of the quotes every book keeps its last one. */
  lemma FirstPriceSticks(o: Odds, id: string, price: Field, book: string, later: Field, other: string,
                         spread: Option<PlainDecimal>, overUnder: Option<PlainDecimal>)
    requires id !in o.rows && ParseOdds(price).Some? && ParseOdds(later).Some?
    ensures
      var first, second := DecimalToAmerican(ParseOdds(price).value), DecimalToAmerican(ParseOdds(later).value);
      var r := QuoteAdded(QuoteAdded(o, id, price, book, spread, overUnder), id, later, other, spread, overUnder);
      && r.order == o.order + [id] && r.rows.Keys == o.rows.Keys + {id} && (forall k <- o.rows :: r.rows[k] == o.rows[k])
      && r.rows[id].fairOdds == r.rows[id].bookOdds == Some(first)
      && r.rows[id].byBook.Keys == {book, other} && r.rows[id].byBook[other].odds == second
      && (book != other ==> r.rows[id].byBook[book].odds == first)
  {
    AmericanIsNotZero(ParseOdds(price).value);
    AmericanIsNotZero(ParseOdds(later).value);
  }

  /** The line an odd is first given sticks as well, and only an odd that exists is given one. */
  lemma FirstLineSticks(o: Odds, id: string, line: PlainDecimal, later: PlainDecimal)
    ensures var r := SetFairSpread(o, id, line);
      r.rows.Keys == o.rows.Keys && r.order == o.order && SetFairSpread(r, id, later) == r
      && forall k <- o.rows :: (r.rows[k] != o.rows[k] ==> k == id && o.rows[id].spread.fair == "")
                               && r.rows[k].overUnder == o.rows[k].overUnder && r.rows[k].byBook == o.rows[k].byBook
    ensures var r := SetFairOverUnder(o, id, line);
      r.rows.Keys == o.rows.Keys && r.order == o.order && SetFairOverUnder(r, id, later) == r
      && forall k <- o.rows :: (r.rows[k] != o.rows[k] ==> k == id && o.rows[id].overUnder.fair == "")
                               && r.rows[k].spread == o.rows[k].spread && r.rows[k].byBook == o.rows[k].byBook
  {
    UnsignedIsPlain(line);
  }

  lemma SpreadStep(stat: string, o: Odds, qs: seq<Quote>, side: string, price: Field, book: string, line: PlainDecimal)
    requires Tabled(stat, o, qs) && side in {"home", "away"}
    ensures Tabled(stat, SpreadSideAdded(o, stat, side, price, book, line),
                   qs + Offer(Parts(stat, side, "game", "sp", side), price, book, Some(line)))
  {
    var parts := Parts(stat, side, "game", "sp", side);
    if ParseOdds(price).Some? {
      var q := Quote(parts, ParseOdds(price).value, book, Some(line));
      Enters(stat, o, qs, q);
      QuoteEnters(o, q, price);
    } else {
      LineAlreadySet(stat, o, qs, parts, line);
      assert qs + [] == qs;
    }
  }

  // A refused price leaves the line alone as well: a row of this id got its line with its first quote.
  lemma LineAlreadySet(stat: string, o: Odds, qs: seq<Quote>, parts: Parts, line: PlainDecimal)
    requires Tabled(stat, o, qs) && Shape(stat, parts) && parts.betType in {"sp", "ou"}
    ensures if parts.betType == "sp" then SetFairSpread(o, OddId(parts), line) == o else SetFairOverUnder(o, OddId(parts), line) == o
  {
    Enters(stat, o, qs, Quote(parts, 2.0, "", Some(line)));
  }

  lemma TotalStep(stat: string, o: Odds, qs: seq<Quote>, side: string, price: Field, book: string, line: PlainDecimal)
    requires Tabled(stat, o, qs) && side in {"over", "under"}
    ensures Tabled(stat, TotalSideAdded(o, stat, side, price, book, line),
                   qs + Offer(Parts(stat, "all", "game", "ou", side), price, book, Some(line)))
  {
    var parts := Parts(stat, "all", "game", "ou", side);
    if ParseOdds(price).Some? {
      var q := Quote(parts, ParseOdds(price).value, book, Some(line));
      Enters(stat, o, qs, q);
      QuoteEnters(o, q, price);
    } else {
      LineAlreadySet(stat, o, qs, parts, line);
      assert qs + [] == qs;
    }
  }

  // ---- one market, one book, all books ----

  lemma MarketStep(o: Odds, qs: seq<Quote>, market: BookMarket, sport: string, book: string)
    requires Tabled(StatOf(sport), o, qs)
    ensures Tabled(StatOf(sport), MarketAdded(o, market, sport, book), qs + MarketQuotes(market, sport, book))
  {
    var stat := StatOf(sport);
    assert qs + [] == qs;
    if market.BookMarket? && market.entries != [] {
      if market.name == "ML" {
        MlRowStep(stat, o, qs, market.entries[0], book);
      } else if market.name == "Asian Handicap" || market.name == "Spread" {
        HandicapRowStep(stat, o, qs, PickHandicap(market.entries), book);
      } else if market.name == "Totals" && PickTotal(market.entries, sport).Some? {
        TotalRowStep(stat, o, qs, PickTotal(market.entries, sport).value, book);
      }
    }
  }

  lemma MlRowStep(stat: string, o: Odds, qs: seq<Quote>, row: Entry, book: string)
    requires Tabled(stat, o, qs)
    ensures Tabled(stat, MlAdded(o, row, stat, book), qs + MlQuotes(row, stat, book))
  {
    var betType := if row.draw.Missing? then "ml" else "ml3way";
    var home := Offer(Parts(stat, "home", "game", betType, "home"), row.home, book, None);
    var away := Offer(Parts(stat, "away", "game", betType, "away"), row.away, book, None);
    var draw := Offer(Parts(stat, "draw", "game", betType, "draw"), row.draw, book, None);
    var o1 := MlSideAdded(o, stat, betType, "home", row.home, book);
    var o2 := MlSideAdded(o1, stat, betType, "away", row.away, book);
    MlSideStep(stat, o, qs, betType, "home", row.home, book);
    MlSideStep(stat, o1, qs + home, betType, "away", row.away, book);
    if row.draw.Missing? {
      assert qs + home + away + draw == qs + home + away;
    } else {
      MlSideStep(stat, o2, qs + home + away, "ml3way", "draw", row.draw, book);
    }
    Associative(qs, home, away);
    Associative(qs, home + away, draw);
  }

  lemma HandicapRowStep(stat: string, o: Odds, qs: seq<Quote>, row: Entry, book: string)
    requires Tabled(stat, o, qs)
    ensures Tabled(stat, HandicapAdded(o, row, stat, book), qs + HandicapQuotes(row, stat, book))
  {
    if Line(row).Some? {
      var hdp := Line(row).value;
      var home := Offer(Parts(stat, "home", "game", "sp", "home"), row.home, book, Some(hdp));
      SpreadStep(stat, o, qs, "home", row.home, book, hdp);
      SpreadStep(stat, SpreadSideAdded(o, stat, "home", row.home, book, hdp), qs + home, "away", row.away, book, Negated(hdp));
      var away := Offer(Parts(stat, "away", "game", "sp", "away"), row.away, book, Some(Negated(hdp)));
      Associative(qs, home, away);
    } else {
      assert qs + [] == qs;
    }
  }

  lemma TotalRowStep(stat: string, o: Odds, qs: seq<Quote>, row: Entry, book: string)
    requires Tabled(stat, o, qs)
    ensures Tabled(stat, TotalsAdded(o, row, stat, book), qs + TotalQuotes(row, stat, book))
  {
    if Line(row).Some? {
      var line := Line(row).value;
      var over := Offer(Parts(stat, "all", "game", "ou", "over"), row.over, book, Some(line));
      TotalStep(stat, o, qs, "over", row.over, book, line);
      TotalStep(stat, TotalSideAdded(o, stat, "over", row.over, book, line), qs + over, "under", row.under, book, line);
      var under := Offer(Parts(stat, "all", "game", "ou", "under"), row.under, book, Some(line));
      Associative(qs, over, under);
    } else {
      assert qs + [] == qs;
    }
  }

  lemma {:induction false} MarketsStep(o: Odds, qs: seq<Quote>, markets: seq<BookMarket>, sport: string, book: string)
    requires Tabled(StatOf(sport), o, qs)
    ensures Tabled(StatOf(sport), MarketsAdded(o, markets, sport, book), qs + MarketsQuotes(markets, sport, book))
  {
    if markets == [] {
      assert qs + [] == qs;
    } else {
      var front, last := markets[..|markets| - 1], markets[|markets| - 1];
      MarketsStep(o, qs, front, sport, book);
      MarketStep(MarketsAdded(o, front, sport, book), qs + MarketsQuotes(front, sport, book), last, sport, book);
      Associative(qs, MarketsQuotes(front, sport, book), MarketQuotes(last, sport, book));
    }
  }

  /** The table holds exactly the quotes of the feed: an odd for every id quoted, in order of first appearance, with
      the price and the line of its first quote and the last quote of every book. */
  lemma {:induction false} TranslateCollects(books: seq<Book>, sport: string)
    ensures Represents(Translate(books, sport), QuotesOf(books, sport))
    ensures AllRegular(StatOf(sport), QuotesOf(books, sport))
  {
    if books != [] {
      var front, last := books[..|books| - 1], books[|books| - 1];
      TranslateCollects(front, sport);
      if Consumed(last) {
        MarketsStep(Translate(front, sport), QuotesOf(front, sport), last.markets.value, sport, BookId(last.name));
      }
    }
  }

  // ---- the quotes, read off the feed ----

  // The field is a price above one.
  predicate Priced(price: Field, d: real) {
    price.Number? && Value(price.value) > 1.0 && d == Value(price.value)
  }

  // The first row of a moneyline gives this quote: home, away or draw, three-way as soon as a draw is mentioned.
  predicate MlGives(row: Entry, q: Quote) {
    && q.parts.betType == (if row.draw.Missing? then "ml" else "ml3way") && q.line.None? && q.parts.entity == q.parts.side
    && ((q.parts.side == "home" && Priced(row.home, q.price)) || (q.parts.side == "away" && Priced(row.away, q.price))
        || (q.parts.side == "draw" && Priced(row.draw, q.price)))
  }

  // The chosen row of a spread gives it: home at the handicap, away at its negation.
  predicate SpreadGives(row: Entry, q: Quote) {
    && q.parts.betType == "sp" && q.parts.entity == q.parts.side && row.hdp.Number?
    && ((q.parts.side == "home" && Priced(row.home, q.price) && q.line == Some(row.hdp.value))
        || (q.parts.side == "away" && Priced(row.away, q.price) && q.line == Some(Negated(row.hdp.value))))
  }

  // The chosen row of a total gives it: over and under at one line.
  predicate TotalGives(row: Entry, q: Quote) {
    && q.parts.betType == "ou" && q.parts.entity == "all" && row.hdp.Number? && q.line == Some(row.hdp.value)
    && ((q.parts.side == "over" && Priced(row.over, q.price)) || (q.parts.side == "under" && Priced(row.under, q.price)))
  }

  predicate Gives(m: BookMarket, sport: string, q: Quote) {
    && m.BookMarket? && m.entries != [] && q.parts.stat == StatOf(sport) && q.parts.period == "game"
    && if m.name == "ML" then MlGives(m.entries[0], q)
       else if m.name == "Asian Handicap" || m.name == "Spread" then SpreadGives(PickHandicap(m.entries), q)
       else m.name == "Totals" && PickTotal(m.entries, sport).Some? && TotalGives(PickTotal(m.entries, sport).value, q)
  }

  lemma OfferGives(parts: Parts, price: Field, book: string, line: Option<PlainDecimal>, q: Quote)
    ensures q in Offer(parts, price, book, line) <==> Priced(price, q.price) && q == Quote(parts, q.price, book, line)
  {
  }

  lemma MarketGives(m: BookMarket, sport: string, book: string, q: Quote)
    ensures q in MarketQuotes(m, sport, book) <==> Gives(m, sport, q) && q.book == book
  {
    if m.BookMarket? && m.entries != [] {
      var stat := StatOf(sport);
      if m.name == "ML" {
        MlRowGives(m.entries[0], stat, book, q);
      } else if m.name == "Asian Handicap" || m.name == "Spread" {
        SpreadRowGives(PickHandicap(m.entries), stat, book, q);
      } else if m.name == "Totals" && PickTotal(m.entries, sport).Some? {
        TotalRowGives(PickTotal(m.entries, sport).value, stat, book, q);
      }
    }
  }

  lemma MlRowGives(row: Entry, stat: string, book: string, q: Quote)
    ensures q in MlQuotes(row, stat, book) <==> q.parts.stat == stat && q.parts.period == "game" && MlGives(row, q) && q.book == book
  {
    var betType := if row.draw.Missing? then "ml" else "ml3way";
    OfferGives(Parts(stat, "home", "game", betType, "home"), row.home, book, None, q);
    OfferGives(Parts(stat, "away", "game", betType, "away"), row.away, book, None, q);
    OfferGives(Parts(stat, "draw", "game", betType, "draw"), row.draw, book, None, q);
  }

  lemma SpreadRowGives(row: Entry, stat: string, book: string, q: Quote)
    ensures q in HandicapQuotes(row, stat, book) <==> q.parts.stat == stat && q.parts.period == "game" && SpreadGives(row, q) && q.book == book
  {
    if Line(row).Some? {
      OfferGives(Parts(stat, "home", "game", "sp", "home"), row.home, book, Some(row.hdp.value), q);
      OfferGives(Parts(stat, "away", "game", "sp", "away"), row.away, book, Some(Negated(row.hdp.value)), q);
    }
  }

  lemma TotalRowGives(row: Entry, stat: string, book: string, q: Quote)
    ensures q in TotalQuotes(row, stat, book) <==> q.parts.stat == stat && q.parts.period == "game" && TotalGives(row, q) && q.book == book
  {
    if Line(row).Some? {
      OfferGives(Parts(stat, "all", "game", "ou", "over"), row.over, book, Some(row.hdp.value), q);
      OfferGives(Parts(stat, "all", "game", "ou", "under"), row.under, book, Some(row.hdp.value), q);
    }
  }

  lemma {:induction false} MarketsGive(ms: seq<BookMarket>, sport: string, book: string, q: Quote)
    ensures q in MarketsQuotes(ms, sport, book) <==> q.book == book && exists m <- ms :: Gives(m, sport, q)
  {
    if ms != [] {
      MarketsGive(ms[..|ms| - 1], sport, book, q);
      MarketGives(ms[|ms| - 1], sport, book, q);
      assert ms == ms[..|ms| - 1] + [ms[|ms| - 1]];
    }
  }

  // The four ids of the table are the names in lower case, as for every other book.
  lemma BookIdIsLower(name: string)
    ensures BookId(name) == Lower(name)
  {
    assert Lower("DraftKings") == "draftkings" && Lower("FanDuel") == "fanduel";
    assert Lower("Bet365") == "bet365" && Lower("Pinnacle") == "pinnacle";
  }

  // A book whose markets are a dict and whose name does not mark it as a copy of another.
  ghost predicate Read(b: Book) {
    b.markets.Some? && !exists k :: StandsAt(Lower(b.name), "(no latency)", k)
  }

  /** The quotes are exactly what the books give, under the name of the book in lower case. */
  lemma {:induction false} QuotedExactly(books: seq<Book>, sport: string, q: Quote)
    ensures q in QuotesOf(books, sport) <==>
      exists b <- books :: Read(b) && q.book == Lower(b.name) && exists m <- b.markets.value :: Gives(m, sport, q)
  {
    if books != [] {
      var front, last := books[..|books| - 1], books[|books| - 1];
      QuotedExactly(front, sport, q);
      ContainsExactly(Lower(last.name), "(no latency)");
      BookIdIsLower(last.name);
      if Consumed(last) { MarketsGive(last.markets.value, sport, BookId(last.name), q); }
      assert books == front + [last];
    }
  }

  /** And stand in the order of the books. */
  lemma {:induction false} QuotesInOrder(a: seq<Book>, b: seq<Book>, sport: string)
    ensures QuotesOf(a + b, sport) == QuotesOf(a, sport) + QuotesOf(b, sport)
  {
    if b == [] {
      assert a + b == a;
    } else {
      var front, last := b[..|b| - 1], b[|b| - 1];
      QuotesInOrder(a, front, sport);
      assert (a + b)[..|a + b| - 1] == a + front && (a + b)[|a + b| - 1] == last;
      if Consumed(last) { Associative(QuotesOf(a, sport), QuotesOf(front, sport), MarketsQuotes(last.markets.value, sport, BookId(last.name))); }
    }
  }

  // ---- the main line ----

  // How far a line is from a target.
  function Gap(x: real, target: real): real {
    if x < target then target - x else x - target
  }

  // The row at i is the pick: no row with a line is nearer to pick'em, every earlier one is farther, and a row without a
  // line is the pick only when no row has one, and then it is the first.
  ghost predicate NearestAt(entries: seq<Entry>, i: int) {
    && 0 <= i < |entries|
    && (entries[i].hdp.Number? ==>
          && (forall j :: 0 <= j < |entries| && entries[j].hdp.Number? ==>
                Gap(Value(entries[i].hdp.value), 0.0) <= Gap(Value(entries[j].hdp.value), 0.0))
          && (forall j :: 0 <= j < i && entries[j].hdp.Number? ==>
                Gap(Value(entries[i].hdp.value), 0.0) < Gap(Value(entries[j].hdp.value), 0.0)))
    && (!entries[i].hdp.Number? ==> i == 0 && forall j :: 0 <= j < |entries| ==> !entries[j].hdp.Number?)
  }

  lemma NearerIs(a: Entry, b: Entry)
    ensures NearerToPick(a, b) <==>
      a.hdp.Number? && (b.hdp.Number? ==> Gap(Value(a.hdp.value), 0.0) < Gap(Value(b.hdp.value), 0.0))
  {
  }

  // No row is nearer than the one at i, and every earlier one is farther.
  ghost predicate PickedAt(entries: seq<Entry>, i: int) {
    && 0 <= i < |entries|
    && (forall j :: 0 <= j < |entries| ==> !NearerToPick(entries[j], entries[i]))
    && (forall j :: 0 <= j < i ==> NearerToPick(entries[i], entries[j]))
  }

  lemma {:induction false} PickedIs(entries: seq<Entry>) returns (i: int)
    requires entries != []
    ensures PickedAt(entries, i) && PickHandicap(entries) == entries[i]
  {
    if |entries| == 1 {
      i := 0;
    } else {
      var front, last := entries[..|entries| - 1], |entries| - 1;
      i := PickedIs(front);
      assert forall j :: 0 <= j < last ==> entries[j] == front[j];
      if NearerToPick(entries[last], front[i]) {
        forall j | 0 <= j < last ensures NearerToPick(entries[last], entries[j]) {
          assert !NearerToPick(front[j], front[i]);
        }
        i := last;
      }
    }
  }

  /** The handicap row is the first of the rows nearest to pick'em; a row without a line is taken only when there
      is no other. */
  lemma HandicapIsNearest(entries: seq<Entry>) returns (i: int)
    requires entries != []
    ensures NearestAt(entries, i) && PickHandicap(entries) == entries[i]
  {
    i := PickedIs(entries);
    if i > 0 { NearerIs(entries[i], entries[0]); }
    forall j | 0 <= j < |entries|
      ensures entries[i].hdp.Number? && entries[j].hdp.Number? ==>
        && Gap(Value(entries[i].hdp.value), 0.0) <= Gap(Value(entries[j].hdp.value), 0.0)
        && (j < i ==> Gap(Value(entries[i].hdp.value), 0.0) < Gap(Value(entries[j].hdp.value), 0.0))
      ensures !entries[i].hdp.Number? ==> !entries[j].hdp.Number?
    {
      NearerIs(entries[j], entries[i]);
      NearerIs(entries[i], entries[j]);
      assert !NearerToPick(entries[j], entries[i]) && (j < i ==> NearerToPick(entries[i], entries[j]));
    }
  }

  ghost predicate FirstNearestAt(valid: seq<Entry>, target: real, i: int) {
    && 0 <= i < |valid| && (forall e <- valid :: e.hdp.Number?)
    && (forall j :: 0 <= j < |valid| ==> Gap(Value(valid[i].hdp.value), target) <= Gap(Value(valid[j].hdp.value), target))
    && (forall j :: 0 <= j < i ==> Gap(Value(valid[i].hdp.value), target) < Gap(Value(valid[j].hdp.value), target))
  }

  lemma DistanceIs(row: Entry, target: real)
    requires row.hdp.Number?
    ensures Distance(row, target) == Gap(Value(row.hdp.value), target)
  {
  }

  ghost predicate ClosestAt(valid: seq<Entry>, target: real, i: int) {
    && 0 <= i < |valid|
    && (forall j :: 0 <= j < |valid| ==> Distance(valid[i], target) <= Distance(valid[j], target))
    && (forall j :: 0 <= j < i ==> Distance(valid[i], target) < Distance(valid[j], target))
  }

  lemma {:induction false} ClosestIsPicked(valid: seq<Entry>, target: real) returns (i: int)
    requires valid != []
    ensures ClosestAt(valid, target, i) && PickNearest(valid, target) == valid[i]
  {
    if |valid| == 1 {
      i := 0;
    } else {
      var front, last := valid[..|valid| - 1], |valid| - 1;
      i := ClosestIsPicked(front, target);
      assert forall j :: 0 <= j < last ==> valid[j] == front[j];
      if Distance(valid[last], target) < Distance(front[i], target) { i := last; }
    }
  }

  lemma NearestIsPicked(valid: seq<Entry>, target: real) returns (i: int)
    requires valid != [] && forall e <- valid :: e.hdp.Number?
    ensures FirstNearestAt(valid, target, i) && PickNearest(valid, target) == valid[i]
  {
    i := ClosestIsPicked(valid, target);
    forall j | 0 <= j < |valid|
      ensures Gap(Value(valid[i].hdp.value), target) <= Gap(Value(valid[j].hdp.value), target)
      ensures j < i ==> Gap(Value(valid[i].hdp.value), target) < Gap(Value(valid[j].hdp.value), target)
    {
      assert valid[i] in valid && valid[j] in valid;
      DistanceIs(valid[i], target);
      DistanceIs(valid[j], target);
    }
  }

  // The rows of a ladder that have a line, in order.
  lemma {:induction false} WithLineKeeps(entries: seq<Entry>, e: Entry)
    ensures multiset(WithLine(entries))[e] == if e.hdp.Number? then multiset(entries)[e] else 0
  {
    if entries != [] {
      WithLineKeeps(entries[..|entries| - 1], e);
      assert entries == entries[..|entries| - 1] + [entries[|entries| - 1]];
    }
  }

  /** In a sport with a canonical total the row is the first of those with a line nearest to it; there is none only when
      no row has a line. */
  lemma TotalIsNearest(entries: seq<Entry>, sport: string) returns (i: int)
    requires sport in CANONICAL_TOTALS
    ensures PickTotal(entries, sport).None? <==> forall e <- entries :: !e.hdp.Number?
    ensures PickTotal(entries, sport).Some? ==>
      FirstNearestAt(WithLine(entries), CANONICAL_TOTALS[sport], i) && PickTotal(entries, sport) == Some(WithLine(entries)[i])
  {
    i := 0;
    if WithLine(entries) != [] {
      assert WithLine(entries)[0] in WithLine(entries);
      i := NearestIsPicked(WithLine(entries), CANONICAL_TOTALS[sport]);
    }
  }

  lemma Median(entries: seq<Entry>, sport: string) returns (lower: seq<Entry>, upper: seq<Entry>)
    requires WithLine(entries) != [] && sport !in CANONICAL_TOTALS
    ensures PickTotal(entries, sport).Some?
    ensures
      var row, n := PickTotal(entries, sport).value, |WithLine(entries)|;
      && multiset(WithLine(entries)) == multiset(lower) + multiset{row} + multiset(upper)
      && |lower| == n / 2 && |upper| == n - 1 - n / 2
      && (forall e <- lower :: LowerLine(e, row)) && (forall e <- upper :: LowerLine(row, e))
  {
    var sorted, k := Sort(LowerLine, WithLine(entries)), |WithLine(entries)| / 2;
    SortSorts(LowerLine, WithLine(entries));
    lower, upper := sorted[..k], sorted[k + 1..];
    assert sorted == lower + [sorted[k]] + upper;
  }

  lemma LowerIs(a: Entry, b: Entry)
    requires a.hdp.Number? && b.hdp.Number?
    ensures LowerLine(a, b) <==> Value(a.hdp.value) <= Value(b.hdp.value)
  {
  }

  /** Where the sport has no canonical total, the row is the (upper) median of the ladder. */
  lemma TotalIsMedian(entries: seq<Entry>, sport: string) returns (lower: seq<Entry>, upper: seq<Entry>)
    requires WithLine(entries) != [] && sport !in CANONICAL_TOTALS
    ensures PickTotal(entries, sport).Some? && PickTotal(entries, sport).value.hdp.Number?
    ensures
      var row, n := PickTotal(entries, sport).value, |WithLine(entries)|;
      && multiset(WithLine(entries)) == multiset(lower) + multiset{row} + multiset(upper)
      && |lower| == n / 2 && |upper| == n - 1 - n / 2
      && (forall e <- lower :: e.hdp.Number? && Value(e.hdp.value) <= Value(row.hdp.value))
      && (forall e <- upper :: e.hdp.Number? && Value(row.hdp.value) <= Value(e.hdp.value))
  {
    lower, upper := Median(entries, sport);
    var row := PickTotal(entries, sport).value;
    HasLine(entries, multiset(lower) + multiset{row} + multiset(upper), row);
    forall e | e in lower ensures e.hdp.Number? && Value(e.hdp.value) <= Value(row.hdp.value) {
      HasLine(entries, multiset(lower) + multiset{row} + multiset(upper), e);
      LowerIs(e, row);
    }
    forall e | e in upper ensures e.hdp.Number? && Value(row.hdp.value) <= Value(e.hdp.value) {
      HasLine(entries, multiset(lower) + multiset{row} + multiset(upper), e);
      LowerIs(row, e);
    }
  }

  lemma HasLine(entries: seq<Entry>, all: multiset<Entry>, e: Entry)
    requires multiset(WithLine(entries)) == all && e in all
    ensures e.hdp.Number?
  {
    assert e in WithLine(entries);
  }
}
