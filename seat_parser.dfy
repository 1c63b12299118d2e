/** The seat-label parser: a nullable label is rejected when blank, matched
    against the seat pattern, and the groups of the leftmost match become a
    `SeatInfo`, the sector name with its Cyrillic look-alikes folded to Latin. */
module SeatParser {
  import opened Wrappers
  import opened CharClasses
  import opened Homoglyphs
  import opened SeatInfoModel
  import opened SeatPattern

  /** What `Matcher.group(name)` returns for the seven named groups: the
      captured text, or `null` for a group of the alternative that did not take part. */
  datatype Groups = Groups(
    sector: Option<string>,
    sectorName: Option<string>,
    sectorWithoutName: Option<string>,
    row: Option<string>,
    rowName: Option<string>,
    seat: Option<string>,
    seatName: Option<string>)

  /** The values a successful parse hands to the `SeatInfo` constructor. */
  datatype SeatFields = SeatFields(
    id: Long,
    sector: string,
    sectorName: string,
    row: string,
    rowName: string,
    seat: string,
    seatName: string)

  /** No line terminator inside: text a `.*` group can capture. */
  predicate OnOneLine(t: string) {
    forall i :: 0 <= i < |t| ==> !IsLineTerminator(t[i])
  }

  /** The text of a span. */
  function Text(s: string, sp: Span): string
    requires sp.lo <= sp.hi <= |s|
  {
    s[sp.lo..sp.hi]
  }

  /** The groups of a match: each group of the alternative that matched holds
      its text, the groups of the other alternative are `null`, and the two
      marker groups hold the marker words. */
  function GroupsOf(s: string, m: Match): (g: Groups)
    requires IsMatch(s, m)
    ensures g.sector.Some? <==> m.prefix.Named?
    ensures g.sectorName.Some? <==> m.prefix.Named?
    ensures g.sectorWithoutName.Some? <==> m.prefix.Unnamed?
    ensures g.row == Some(RowWord) && g.seat == Some(SeatWord)
    ensures g.rowName.Some? && g.seatName.Some?
    ensures g.sectorName.Some? ==> g.sectorName.value != [] && IsUpperOrDigit(g.sectorName.value[0])
  {
    var t := m.tail;
    assert Text(s, Span(t.row, t.row + |RowWord|)) == RowWord;
    assert Text(s, Span(t.seat, t.seat + |SeatWord|)) == SeatWord;
    Groups(
      if m.prefix.Named? then Some(Text(s, m.prefix.sector)) else None,
      if m.prefix.Named? then Some(Text(s, m.prefix.sectorName)) else None,
      if m.prefix.Unnamed? then Some(Text(s, m.prefix.sectorWithoutName)) else None,
      Some(Text(s, Span(t.row, t.row + |RowWord|))),
      Some(Text(s, t.rowName)),
      Some(Text(s, Span(t.seat, t.seat + |SeatWord|))),
      Some(Text(s, t.seatName)))
  }

  /** `extractSeatInfo`: the sector is the second alternative's group when it
      is present and the first one's otherwise, the sector name is folded and
      defaults to the empty string, and the record is refused when any of the
      five required values is `null`. */
  function Extract(g: Groups, id: Long): (r: Option<SeatFields>)
    ensures r.None? <==> (g.sectorWithoutName.None? && g.sector.None?) || g.row.None?
                         || g.rowName.None? || g.seat.None? || g.seatName.None?
    ensures r.Some? ==> r.value.id == id
    ensures r.Some? ==> Some(r.value.sector) == (if g.sectorWithoutName.Some? then g.sectorWithoutName else g.sector)
    ensures r.Some? ==> r.value.sectorName == (if g.sectorName.Some? then Fold(g.sectorName.value) else "")
    ensures r.Some? ==> Some(r.value.row) == g.row && Some(r.value.rowName) == g.rowName
    ensures r.Some? ==> Some(r.value.seat) == g.seat && Some(r.value.seatName) == g.seatName
  {
    var sector := g.sectorWithoutName.Or(g.sector);
    var sectorName := g.sectorName.Map(Fold).GetOr("");
    if sector.None? || g.row.None? || g.rowName.None? || g.seat.None? || g.seatName.None? then None
    else Some(SeatFields(id, sector.value, sectorName, g.row.value, g.rowName.value, g.seat.value, g.seatName.value))
  }

  /** `parseSeat`: no record for a `null` or blank label or a label the pattern
      does not match; otherwise the record extracted from the leftmost match. */
  function Parse(seatLabel: Option<string>, id: Long): (r: Option<SeatFields>)
    ensures seatLabel.None? || IsBlank(seatLabel.value) ==> r.None?
    ensures r.Some? ==> r.value.id == id
  {
    if seatLabel.None? then None
    else
      TrimEmptyIffBlank(seatLabel.value);
      if Trim(seatLabel.value) == "" then None
      else
        match Find(seatLabel.value)
        case None => None
        case Some(m) =>
          FindSound(seatLabel.value);
          Extract(GroupsOf(seatLabel.value, m), id)
  }

  /** `info` holds the values of `f`, and its full strings agree with them. */
  predicate Describes(info: SeatInfo, f: SeatFields)
    reads info
  {
    info.id == f.id && info.sector == Some(f.sector) && info.sectorName == Some(f.sectorName)
    && info.row == Some(f.row) && info.rowName == Some(f.rowName)
    && info.seat == Some(f.seat) && info.seatName == Some(f.seatName)
    && info.DerivedFieldsCurrent()
  }

  // ---------------------------------------------------------------------------
  // The parser's methods

  method ParseSeat(seatLabel: Option<string>, id: Long) returns (r: Option<SeatInfo>)
    ensures r.None? <==> Parse(seatLabel, id).None?
    ensures r.Some? ==> fresh(r.value) && Describes(r.value, Parse(seatLabel, id).value)
  {
    if seatLabel.None? || Trim(seatLabel.value) == "" {
      r := None;
    } else {
      var found := Find(seatLabel.value);
      if found.None? {
        r := None;
      } else {
        FindSound(seatLabel.value);
        r := ExtractSeatInfo(GroupsOf(seatLabel.value, found.value), id);
      }
    }
  }

  method ExtractSeatInfo(g: Groups, id: Long) returns (r: Option<SeatInfo>)
    ensures r.None? <==> Extract(g, id).None?
    ensures r.Some? ==> fresh(r.value) && Describes(r.value, Extract(g, id).value)
  {
    var sector := g.sectorWithoutName.Or(g.sector);
    var sectorName := "";
    if g.sectorName.Some? {
      var folded := ReplaceCyrillicChars(g.sectorName);
      sectorName := folded.value;
    }
    if sector.None? || g.row.None? || g.rowName.None? || g.seat.None? || g.seatName.None? {
      r := None;
    } else {
      var info := new SeatInfo(id, sector, Some(sectorName), g.row, g.rowName, g.seat, g.seatName);
      r := Some(info);
    }
  }

  // ---------------------------------------------------------------------------
  // What a parse promises

  /** Every match yields all five required values, so the `null` check of
      `extractSeatInfo` never refuses a match. */
  lemma ExtractAcceptsEveryMatch(s: string, m: Match, id: Long)
    requires IsMatch(s, m)
    ensures Extract(GroupsOf(s, m), id).Some?
  {
  }

  /** A label is parsed exactly when the pattern matches it somewhere: a
      label the pattern matches is never blank, and no match is refused. */
  lemma ParseSucceedsIffMatch(s: string, id: Long)
    ensures Parse(Some(s), id).Some? <==> exists m :: IsMatch(s, m)
  {
    if Parse(Some(s), id).Some? {
      ParsedFromFind(s, id);
      assert IsMatch(s, Find(s).value);
    }
    if exists m :: IsMatch(s, m) {
      var m :| IsMatch(s, m);
      MatchIsNotBlank(s, m);
      FindComplete(s, m);
      FindSound(s);
      ExtractAcceptsEveryMatch(s, Find(s).value, id);
    }
  }

  /** The row marker is printable, so a label holding a match is not blank. */
  lemma MatchIsNotBlank(s: string, m: Match)
    requires IsMatch(s, m)
    ensures !IsBlank(s)
  {
    WordAtStart(s, m.tail.row, RowWord);
    assert s[m.tail.row] > ' ';
  }

  /** The record comes from the leftmost match of the pattern. */
  lemma ParseUsesLeftmostMatch(s: string, id: Long)
    requires Parse(Some(s), id).Some?
    ensures exists m :: IsMatch(s, m) && Parse(Some(s), id) == Extract(GroupsOf(s, m), id)
                        && forall m' :: IsMatch(s, m') ==> m.start <= m'.start
  {
    ParsedFromFind(s, id);
    var m := Find(s).value;
    forall m' | IsMatch(s, m') ensures m.start <= m'.start {
      FindComplete(s, m');
    }
    assert Parse(Some(s), id) == Extract(GroupsOf(s, m), id);
  }

  /** A successful parse is the extraction from the match `Find` returns. */
  lemma ParsedFromFind(s: string, id: Long)
    requires Parse(Some(s), id).Some?
    ensures Find(s).Some? && IsMatch(s, Find(s).value)
    ensures Parse(Some(s), id) == Extract(GroupsOf(s, Find(s).value), id)
  {
    FindSound(s);
  }

  /** The shape of the record built from any match: the id passed in, the two
      marker words, captured values that stay on one line, and a sector name
      that is empty or starts with a capital letter or digit and holds no
      Cyrillic look-alike letters. */
  lemma ExtractedRecordShape(s: string, m: Match, id: Long)
    requires IsMatch(s, m)
    ensures Extract(GroupsOf(s, m), id).Some?
    ensures var f := Extract(GroupsOf(s, m), id).value;
            f.id == id && f.row == RowWord && f.seat == SeatWord
            && OnOneLine(f.sector) && OnOneLine(f.rowName) && OnOneLine(f.seatName) && OnOneLine(f.sectorName)
            && (f.sectorName == [] || IsUpperOrDigit(f.sectorName[0]))
            && forall i :: 0 <= i < |f.sectorName| ==> f.sectorName[i] !in CyrillicChars
  {
    match m.prefix
    case Named(sector, name) =>
      var t := Text(s, name);
      FoldIdempotent(t);
      FoldCharKeepsUpperOrDigit(t[0]);
      FoldKeepsOneLine(t);
    case Unnamed(_) =>
  }

  /** Every parsed record has the shape `ExtractedRecordShape` describes. */
  lemma ParsedRecordShape(s: string, id: Long)
    requires Parse(Some(s), id).Some?
    ensures var f := Parse(Some(s), id).value;
            f.id == id && f.row == RowWord && f.seat == SeatWord
            && OnOneLine(f.sector) && OnOneLine(f.rowName) && OnOneLine(f.seatName) && OnOneLine(f.sectorName)
            && (f.sectorName == [] || IsUpperOrDigit(f.sectorName[0]))
            && forall i :: 0 <= i < |f.sectorName| ==> f.sectorName[i] !in CyrillicChars
  {
    ParsedFromFind(s, id);
    ExtractedRecordShape(s, Find(s).value, id);
  }

  /** Folding introduces no line terminator. */
  lemma FoldKeepsOneLine(t: string)
    requires OnOneLine(t)
    ensures OnOneLine(Fold(t))
  {
    forall i | 0 <= i < |t| ensures !IsLineTerminator(Fold(t)[i]) {
      FoldCharLatinOrSame(t[i]);
    }
  }

  /** The full row and seat strings of a parsed record are the marker words
      followed by a space and the captured names. */
  lemma ParsedFullStrings(s: string, id: Long)
    requires Parse(Some(s), id).Some?
    ensures var f := Parse(Some(s), id).value;
            FullRow(Some(f.row), Some(f.rowName)) == RowWord + " " + f.rowName
            && FullSeat(Some(f.seat), Some(f.seatName)) == SeatWord + " " + f.seatName
  {
    ParsedRecordShape(s, id);
  }
}
