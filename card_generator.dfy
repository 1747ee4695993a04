/**
 * The reproducible part of the card generator: the two percentile classifiers,
 * the assembly of one player card from one season-stats document, the draft
 * reader and the column order of the cards CSV.
 *
 * The percentile thresholds and the documents a search returns come from the
 * store; here they are inputs. Stat values are only ever compared, so they are
 * `real`s.
 */
module CardGenerator {
  import opened Wrappers

  /** Three percentile cut points of one statistic, lowest first:
      the 20th/50th/90th percentiles, or the 10th/50th/80th for turnovers. */
  datatype Cuts = Cuts(low: real, mid: real, high: real)

  predicate Ordered(c: Cuts) {
    c.low <= c.mid <= c.high
  }

  /** The thresholds of the eight rated statistics for one run. */
  datatype ThresholdSet = ThresholdSet(
    twoP: Cuts, threeP: Cuts, drb: Cuts, orb: Cuts,
    ast: Cuts, blk: Cuts, stl: Cuts, tov: Cuts)

  /** Names of the statistics in a season-stats document. */
  const TwoPStat := "2P%"
  const ThreePStat := "3P%"
  const DrbStat := "DRB%"
  const OrbStat := "ORB%"
  const AstStat := "AST%"
  const BlkStat := "BLK%"
  const StlStat := "STL%"
  const TovStat := "TOV%"

  /** One document of a search: its numeric statistics and its text fields
      (`Year`, `Tm`, `Pos`, ...). A key absent from a map is absent from the document. */
  datatype Hit = Hit(stats: map<string, real>, fields: map<string, string>)

  /** A player card: name, year, team, position and eight ratings. */
  datatype PlayerCard = PlayerCard(
    name: string, year: string, team: string, pos: string,
    twoP: int, threeP: int, drb: int, orb: int,
    ast: int, blk: int, stl: int, skl: int)

  predicate IsRating(r: int) {
    1 <= r <= 4
  }

  predicate RatingsInRange(c: PlayerCard) {
    IsRating(c.twoP) && IsRating(c.threeP) && IsRating(c.drb) && IsRating(c.orb) &&
    IsRating(c.ast) && IsRating(c.blk) && IsRating(c.stl) && IsRating(c.skl)
  }

  // ---------------------------------------------------------------------------
  // Classifiers

  /** Rating of a statistic where more is better: strictly above the 90th
      percentile is 4, above the 50th is 3, above the 20th is 2, otherwise 1. */
  function CalcAttr(cuts: Cuts, value: real): (r: int)
    ensures IsRating(r)
  {
    if value > cuts.high then 4
    else if value > cuts.mid then 3
    else if value > cuts.low then 2
    else 1
  }

  /** Rating of the turnover rate, where less is better: at or above the 80th
      percentile is 1, at or above the 50th is 2, at or above the 10th is 3,
      otherwise 4. */
  function CalcSklAttr(cuts: Cuts, tov: real): (r: int)
    ensures IsRating(r)
  {
    if tov >= cuts.high then 1
    else if tov >= cuts.mid then 2
    else if tov >= cuts.low then 3
    else 4
  }

  /** With ordered cut points each rating is one half-open interval of values,
      closed above: a value equal to a cut point gets the lower rating. */
  lemma CalcAttrBuckets(cuts: Cuts, value: real)
    requires Ordered(cuts)
    ensures CalcAttr(cuts, value) == 4 <==> cuts.high < value
    ensures CalcAttr(cuts, value) == 3 <==> cuts.mid < value <= cuts.high
    ensures CalcAttr(cuts, value) == 2 <==> cuts.low < value <= cuts.mid
    ensures CalcAttr(cuts, value) == 1 <==> value <= cuts.low
  {
  }

  /** A larger value never gets a lower rating, whatever the cut points. */
  lemma CalcAttrMonotone(cuts: Cuts, v: real, w: real)
    requires v <= w
    ensures CalcAttr(cuts, v) <= CalcAttr(cuts, w)
  {
  }

  /** With ordered cut points each turnover rating is one half-open interval of
      values, closed below: a value equal to a cut point gets the worse rating. */
  lemma CalcSklAttrBuckets(cuts: Cuts, tov: real)
    requires Ordered(cuts)
    ensures CalcSklAttr(cuts, tov) == 1 <==> cuts.high <= tov
    ensures CalcSklAttr(cuts, tov) == 2 <==> cuts.mid <= tov < cuts.high
    ensures CalcSklAttr(cuts, tov) == 3 <==> cuts.low <= tov < cuts.mid
    ensures CalcSklAttr(cuts, tov) == 4 <==> tov < cuts.low
  {
  }

  /** More turnovers never get a better rating, whatever the cut points. */
  lemma CalcSklAttrAntitone(cuts: Cuts, v: real, w: real)
    requires v <= w
    ensures CalcSklAttr(cuts, w) <= CalcSklAttr(cuts, v)
  {
  }

  /** The turnover classifier is the standard one applied to the negated value
      and the negated, reversed cut points: its inclusive tie-break is exactly
      what the strict one becomes when the scale is turned upside down. */
  lemma CalcSklAttrIsMirroredCalcAttr(cuts: Cuts, tov: real)
    requires Ordered(cuts)
    ensures CalcSklAttr(cuts, tov) == CalcAttr(Cuts(-cuts.high, -cuts.mid, -cuts.low), -tov)
  {
  }

  /** Boundary values: with cut points 0.30/0.45/0.60 and 8/14/20. */
  lemma ClassifierBoundaryExamples()
    ensures CalcAttr(Cuts(0.30, 0.45, 0.60), 0.50) == 3
    ensures CalcAttr(Cuts(0.30, 0.45, 0.60), 0.60) == 3
    ensures CalcAttr(Cuts(0.30, 0.45, 0.60), 0.61) == 4
    ensures CalcAttr(Cuts(0.30, 0.45, 0.60), 0.10) == 1
    ensures CalcSklAttr(Cuts(8.0, 14.0, 20.0), 20.0) == 1
    ensures CalcSklAttr(Cuts(8.0, 14.0, 20.0), 19.9) == 2
    ensures CalcSklAttr(Cuts(8.0, 14.0, 20.0), 8.0) == 3
    ensures CalcSklAttr(Cuts(8.0, 14.0, 20.0), 7.9) == 4
  {
  }

  // ---------------------------------------------------------------------------
  // Card assembly

  /** The rating of one statistic of a document: 1 when the document lacks it. */
  function StatRating(cuts: Cuts, stats: map<string, real>, stat: string): (r: int)
    ensures IsRating(r)
  {
    if stat in stats then CalcAttr(cuts, stats[stat]) else 1
  }

  /** The SKL rating of a document: 1 when it lacks `TOV%`, although the
      turnover classifier's own default is 4. */
  function SkillRating(cuts: Cuts, stats: map<string, real>): (r: int)
    ensures IsRating(r)
  {
    if TovStat in stats then CalcSklAttr(cuts, stats[TovStat]) else 1
  }

  /** The text fields a card copies from its document. */
  predicate HasCardFields(hit: Hit) {
    "Year" in hit.fields && "Tm" in hit.fields && "Pos" in hit.fields
  }

  /** One iteration of the card loop: rate the eight statistics, then read
      `Year`, `Tm` and `Pos`, in that order, raising on the first one missing. */
  function BuildCard(name: string, t: ThresholdSet, hit: Hit): (r: Result<PlayerCard, KeyError>)
    ensures r.Success? <==> HasCardFields(hit)
    ensures r.Failure? ==> r.error.key in {"Year", "Tm", "Pos"} && r.error.key !in hit.fields
    ensures r.Success? ==> RatingsInRange(r.value) && r.value.name == name
  {
    var s := hit.stats;
    var twoP := StatRating(t.twoP, s, TwoPStat);
    var threeP := StatRating(t.threeP, s, ThreePStat);
    var drb := StatRating(t.drb, s, DrbStat);
    var orb := StatRating(t.orb, s, OrbStat);
    var ast := StatRating(t.ast, s, AstStat);
    var blk := StatRating(t.blk, s, BlkStat);
    var stl := StatRating(t.stl, s, StlStat);
    var skl := SkillRating(t.tov, s);
    if "Year" !in hit.fields then Failure(KeyError("Year"))
    else if "Tm" !in hit.fields then Failure(KeyError("Tm"))
    else if "Pos" !in hit.fields then Failure(KeyError("Pos"))
    else Success(PlayerCard(name, hit.fields["Year"], hit.fields["Tm"], hit.fields["Pos"],
                            twoP, threeP, drb, orb, ast, blk, stl, skl))
  }

  /** A card carries the requested name, copies year, team and position from its
      document, and rates each statistic with its classifier when the document
      has it and 1 when it does not (SKL included). */
  lemma BuildCardFields(name: string, t: ThresholdSet, hit: Hit)
    requires HasCardFields(hit)
    ensures BuildCard(name, t, hit).Success?
    ensures var c := BuildCard(name, t, hit).value;
      && c.name == name
      && c.year == hit.fields["Year"] && c.team == hit.fields["Tm"] && c.pos == hit.fields["Pos"]
      && c.twoP == (if TwoPStat in hit.stats then CalcAttr(t.twoP, hit.stats[TwoPStat]) else 1)
      && c.threeP == (if ThreePStat in hit.stats then CalcAttr(t.threeP, hit.stats[ThreePStat]) else 1)
      && c.drb == (if DrbStat in hit.stats then CalcAttr(t.drb, hit.stats[DrbStat]) else 1)
      && c.orb == (if OrbStat in hit.stats then CalcAttr(t.orb, hit.stats[OrbStat]) else 1)
      && c.ast == (if AstStat in hit.stats then CalcAttr(t.ast, hit.stats[AstStat]) else 1)
      && c.blk == (if BlkStat in hit.stats then CalcAttr(t.blk, hit.stats[BlkStat]) else 1)
      && c.stl == (if StlStat in hit.stats then CalcAttr(t.stl, hit.stats[StlStat]) else 1)
      && c.skl == (if TovStat in hit.stats then CalcSklAttr(t.tov, hit.stats[TovStat]) else 1)
  {
  }

  /** A document without an assist percentage gets assist rating 1, whatever
      its other statistics and the thresholds. */
  lemma MissingAssistRatesOne(name: string, t: ThresholdSet, hit: Hit)
    requires HasCardFields(hit) && AstStat !in hit.stats
    ensures BuildCard(name, t, hit).Success? && BuildCard(name, t, hit).value.ast == 1
  {
  }

  /** The first document of `hits` whose card cannot be built, if any. */
  predicate FirstBadHit(hits: seq<Hit>, i: int) {
    0 <= i < |hits| && !HasCardFields(hits[i]) &&
    forall j :: 0 <= j < i ==> HasCardFields(hits[j])
  }

  /** The card loop over the documents of one search, in search order. It stops
      at the first document whose card cannot be built. */
  method CreatePlayerCards(name: string, t: ThresholdSet, hits: seq<Hit>)
    returns (res: Result<seq<PlayerCard>, KeyError>)
    ensures res.Success? <==> forall i :: 0 <= i < |hits| ==> HasCardFields(hits[i])
    ensures res.Success? ==> |res.value| == |hits|
    ensures res.Success? ==> forall i :: 0 <= i < |hits| ==>
      BuildCard(name, t, hits[i]) == Success(res.value[i])
    ensures res.Success? ==> forall c :: c in res.value ==> c.name == name && RatingsInRange(c)
    ensures res.Failure? ==> exists i :: FirstBadHit(hits, i) && BuildCard(name, t, hits[i]) == Failure(res.error)
  {
    var cards: seq<PlayerCard> := [];
    var i := 0;
    while i < |hits|
      invariant 0 <= i <= |hits|
      invariant |cards| == i
      invariant forall j :: 0 <= j < i ==> HasCardFields(hits[j])
      invariant forall j :: 0 <= j < i ==> BuildCard(name, t, hits[j]) == Success(cards[j])
    {
      var card := BuildCard(name, t, hits[i]);
      if card.Failure? {
        assert FirstBadHit(hits, i);
        return Failure(card.error);
      }
      cards := cards + [card.value];
      i := i + 1;
    }
    res := Success(cards);
  }

  // ---------------------------------------------------------------------------
  // Draft reader

  /** One requested player: the `name` and `year` cells of a draft row, either
      of which is `None` when the column is missing. */
  datatype DraftEntry = DraftEntry(name: Option<string>, year: Option<string>)

  /** The year filter a draft entry puts on its search: none when the year is
      missing or empty (both are falsy), the exact year otherwise. */
  function YearFilter(year: Option<string>): (f: Option<string>)
    ensures f.Some? <==> year.Some? && year.value != ""
    ensures f.Some? ==> f == year
  {
    if year.Some? && year.value != "" then year else None
  }

  /** The draft reader: one entry per row, in row order. An entry asks for
      every year exactly when its row's `year` cell is missing or empty. */
  method ReadDraft(rows: seq<map<string, string>>) returns (players: seq<DraftEntry>)
    ensures |players| == |rows|
    ensures forall i :: 0 <= i < |rows| ==>
      players[i].name == Get(rows[i], "name") && players[i].year == Get(rows[i], "year")
    ensures forall i :: 0 <= i < |rows| ==>
      (YearFilter(players[i].year) == None <==> "year" !in rows[i] || rows[i]["year"] == "")
  {
    players := [];
    for i := 0 to |rows|
      invariant |players| == i
      invariant forall j :: 0 <= j < i ==>
        players[j].name == Get(rows[j], "name") && players[j].year == Get(rows[j], "year")
    {
      var row := rows[i];
      players := players + [DraftEntry(Get(row, "name"), Get(row, "year"))];
    }
  }

  /** A draft row whose `year` cell is empty or missing asks for every year. */
  lemma EmptyYearAsksAllYears(row: map<string, string>)
    requires "year" !in row || row["year"] == ""
    ensures YearFilter(Get(row, "year")) == None
  {
  }

  // ---------------------------------------------------------------------------
  // Cards CSV

  /** A CSV cell before formatting: text, or a rating. */
  datatype Cell = Text(s: string) | Number(n: int)

  /** The columns of the cards CSV, in order. */
  const Header: seq<string> :=
    ["Name", "Year", "Team", "Position", "2PT", "3PT", "DRB", "ORB", "AST", "BLK", "STL", "SKL"]

  /** The card as a column-name to cell dictionary. */
  function ToDict(c: PlayerCard): (d: map<string, Cell>)
    ensures d.Keys == set k | k in Header
  {
    map["Name" := Text(c.name), "Year" := Text(c.year), "Team" := Text(c.team),
        "Position" := Text(c.pos), "2PT" := Number(c.twoP), "3PT" := Number(c.threeP),
        "DRB" := Number(c.drb), "ORB" := Number(c.orb), "AST" := Number(c.ast),
        "BLK" := Number(c.blk), "STL" := Number(c.stl), "SKL" := Number(c.skl)]
  }

  /** The data line a dictionary writer with `Header` as field names writes for a card. */
  function CsvRow(c: PlayerCard): (row: seq<Cell>)
    ensures |row| == |Header|
  {
    var d := ToDict(c);
    seq(|Header|, i requires 0 <= i < |Header| => d[Header[i]])
  }

  /** Reads a card back from a data line of the cards CSV. */
  function CardOfRow(row: seq<Cell>): (c: Option<PlayerCard>)
    ensures c.Some? ==> |row| == |Header|
  {
    if |row| != |Header| then None
    else match (row[0], row[1], row[2], row[3], row[4], row[5], row[6], row[7], row[8], row[9], row[10], row[11])
      case (Text(name), Text(year), Text(team), Text(pos),
            Number(twoP), Number(threeP), Number(drb), Number(orb),
            Number(ast), Number(blk), Number(stl), Number(skl)) =>
        Some(PlayerCard(name, year, team, pos, twoP, threeP, drb, orb, ast, blk, stl, skl))
      case _ => None
  }

  /** A data line holds the card's fields in header order. */
  lemma CsvRowFieldOrder(c: PlayerCard)
    ensures CsvRow(c) == [Text(c.name), Text(c.year), Text(c.team), Text(c.pos),
                          Number(c.twoP), Number(c.threeP), Number(c.drb), Number(c.orb),
                          Number(c.ast), Number(c.blk), Number(c.stl), Number(c.skl)]
  {
  }

  /** Writing a card and reading it back gives the same card. */
  lemma CsvRowRoundTrip(c: PlayerCard)
    ensures CardOfRow(CsvRow(c)) == Some(c)
  {
    CsvRowFieldOrder(c);
  }

  /** The header line of the cards CSV. */
  function HeaderRow(): (row: seq<Cell>)
    ensures |row| == |Header|
  {
    seq(|Header|, i requires 0 <= i < |Header| => Text(Header[i]))
  }

  /** The cards CSV: the header line, then one data line per card, in card
      order, from which each card reads back unchanged. */
  method WriteCardsCsv(cards: seq<PlayerCard>) returns (lines: seq<seq<Cell>>)
    ensures |lines| == |cards| + 1
    ensures lines[0] == HeaderRow()
    ensures forall i :: 0 <= i < |cards| ==> lines[i + 1] == CsvRow(cards[i])
    ensures forall i :: 0 <= i < |cards| ==> CardOfRow(lines[i + 1]) == Some(cards[i])
  {
    lines := [HeaderRow()];
    for k := 0 to |cards|
      invariant |lines| == k + 1
      invariant lines[0] == HeaderRow()
      invariant forall i :: 0 <= i < k ==> lines[i + 1] == CsvRow(cards[i])
    {
      lines := lines + [CsvRow(cards[k])];
    }
    forall i | 0 <= i < |cards|
      ensures CardOfRow(lines[i + 1]) == Some(cards[i])
    {
      CsvRowRoundTrip(cards[i]);
    }
  }
}
