/** A worked example of the whole parser: of the matches of the label
    "A1 Ряд 5 Место 12", only one starts at 0 and has a seat name that reaches
    the end of the line, and that is the one `find()` returns, so the record
    holds the sector "A1" without a sector name, row "5" and seat "12". */
module SeatExamples {
  import opened Wrappers
  import opened CharClasses
  import opened SeatPattern
  import opened SeatParser

  const Label: string := "A1 Ряд 5 Место 12"

  /** The match the example label has: the second alternative takes "A1". */
  const LabelMatch: Match := Match(0, Unnamed(Span(0, 2)), Tail(3, Span(7, 8), 9, Span(15, 17)))

  /** What each position of the label holds, as far as the pattern cares: no
      line terminator anywhere, the markers' first letters only where the
      markers are, and spaces only between the words. */
  lemma LabelChar(i: nat)
    requires i < |Label|
    ensures !IsLineTerminator(Label[i])
    ensures Label[i] == RowWord[0] ==> i == 3
    ensures Label[i] == SeatWord[0] ==> i == 9
    ensures IsSpace(Label[i]) <==> i == 2 || i == 6 || i == 8 || i == 14
  {
    assert i == 0 || i == 1 || i == 2 || i == 3 || i == 4 || i == 5 || i == 6 || i == 7 || i == 8
        || i == 9 || i == 10 || i == 11 || i == 12 || i == 13 || i == 14 || i == 15 || i == 16;
  }

  /** `LabelMatch` is a match of the label. */
  lemma LabelMatchMatches()
    ensures IsMatch(Label, LabelMatch)
  {
    forall i | 0 <= i < |Label| ensures !IsLineTerminator(Label[i]) && (IsSpace(Label[i]) <==> i == 2 || i == 6 || i == 8 || i == 14) {
      LabelChar(i);
    }
    assert WordAt(Label, 3, RowWord);
    assert WordAt(Label, 9, SeatWord);
  }

  /** The row and seat markers occur only where `LabelMatch` puts them. */
  lemma MarkersOfLabel(r: nat, q: nat)
    requires WordAt(Label, r, RowWord) && WordAt(Label, q, SeatWord)
    ensures r == 3 && q == 9
  {
    WordAtStart(Label, r, RowWord);
    WordAtStart(Label, q, SeatWord);
    LabelChar(r);
    LabelChar(q);
  }

  /** No match of the label uses the first alternative: the sector name would
      have to start at "1", after a sector "A" that no space follows. */
  lemma LabelPrefixUnnamed(m: Match)
    requires IsMatch(Label, m) && m.start == 0
    ensures m.prefix == Unnamed(Span(0, 2))
  {
    MarkersOfLabel(m.tail.row, m.tail.seat);
    LabelChar(0);
    LabelChar(1);
    // the space run before the row marker covers `Label[1]` unless the prefix ends at 2
    assert m.prefix.End() == 2;
    match m.prefix
    case Named(sector, name) =>
      assert false;
    case Unnamed(all) =>
  }

  /** A match of the label that starts at 0 and whose seat name runs to the end
      of the line is `LabelMatch`. */
  lemma LabelMatchUnique(m: Match)
    requires IsMatch(Label, m) && m.start == 0 && ReachesLineEnd(Label, m.tail.seatName)
    ensures m == LabelMatch
  {
    LabelPrefixUnnamed(m);
    var t := m.tail;
    MarkersOfLabel(t.row, t.seat);
    LabelChar(7);
    LabelChar(15);
    assert t.rowName.lo == 7;
    assert t.rowName.hi == 8;
    assert t.seatName.lo == 15;
    if t.seatName.hi < |Label| {
      LabelChar(t.seatName.hi);
    }
  }

  /** The leftmost match of the label is `LabelMatch`. */
  lemma FindLabel()
    ensures Find(Label) == Some(LabelMatch)
  {
    LabelMatchMatches();
    FindComplete(Label, LabelMatch);
    FindSound(Label);
    LabelMatchUnique(Find(Label).value);
  }

  /** The label is not blank and its leftmost match is `LabelMatch`, so the
      record is the one extracted from the groups of `LabelMatch`. */
  lemma ParseLabelFromMatch()
    ensures IsMatch(Label, LabelMatch)
    ensures Parse(Some(Label), 7) == Extract(GroupsOf(Label, LabelMatch), 7)
  {
    FindLabel();
    LabelMatchMatches();
    MatchIsNotBlank(Label, LabelMatch);
    TrimEmptyIffBlank(Label);
  }

  /** The groups of `LabelMatch`: no sector or sector name, "A1" for the
      sector without a name, the two markers, "5" and "12". */
  lemma GroupsOfLabel()
    ensures IsMatch(Label, LabelMatch)
    ensures GroupsOf(Label, LabelMatch)
            == Groups(None, None, Some("A1"), Some(RowWord), Some("5"), Some(SeatWord), Some("12"))
  {
    LabelMatchMatches();
    assert Text(Label, Span(0, 2)) == "A1";
    assert Text(Label, Span(7, 8)) == "5";
    assert Text(Label, Span(15, 17)) == "12";
  }

  /** Parsing the label with id 7 yields sector "A1", an empty sector name,
      row "5" and seat "12". */
  lemma ParseExample()
    ensures Parse(Some(Label), 7) == Some(SeatFields(7, "A1", "", "Ряд", "5", "Место", "12"))
  {
    ParseLabelFromMatch();
    GroupsOfLabel();
  }
}
