/** One resolved seat: the raw fields captured from a label and the three
    display strings derived from them when the record is built. */
module SeatInfoModel {
  import opened Wrappers
  import opened CharClasses

  /** Java's `long`. */
  newtype Long = x: int | -0x8000_0000_0000_0000 <= x < 0x8000_0000_0000_0000

  /** The generic word "sector", which is left out of the full sector string. */
  const SectorWord: string := "сектор"

  /** The full sector string, written as the chain of optional values it is
      built from; its contract is the case table that chain amounts to. */
  function FullSector(sector: Option<string>, sectorName: Option<string>): (r: string)
    ensures sector.None? ==> r == ""
    ensures sector.Some? && (sectorName.None? || sectorName.value == "") ==> r == sector.value
    ensures sector.Some? && sectorName.Some? && sectorName.value != "" ==>
              r == if EqualsIgnoreCase(SectorWord, sector.value) then sectorName.value
                   else sector.value + " " + sectorName.value
  {
    sector
      .FlatMap(s => sectorName
                 .Filter(name => name != "")
                 .Map(name => if EqualsIgnoreCase(SectorWord, s) then name else s + " " + name))
      .GetOr(sector.GetOr(""))
  }

  /** The full row string: the marker, a space and the row name, when both are present. */
  function FullRow(row: Option<string>, rowName: Option<string>): (r: string)
    ensures row.Some? && rowName.Some? ==> r == row.value + " " + rowName.value
    ensures row.None? || rowName.None? ==> r == ""
  {
    row.FlatMap(rw => rowName.Map(name => rw + " " + name)).GetOr("")
  }

  /** The full seat string: the marker, a space and the seat name, when both are present. */
  function FullSeat(seat: Option<string>, seatName: Option<string>): (r: string)
    ensures seat.Some? && seatName.Some? ==> r == seat.value + " " + seatName.value
    ensures seat.None? || seatName.None? ==> r == ""
  {
    seat.FlatMap(st => seatName.Map(name => st + " " + name)).GetOr("")
  }

  /** A sector equals "сектор" ignoring case exactly when its upper-cased,
      then lower-cased letters spell "сектор". */
  lemma SectorWordIgnoringCase(t: string)
    ensures EqualsIgnoreCase(SectorWord, t) <==>
              |t| == |SectorWord| && forall i :: 0 <= i < |t| ==> ToLower(ToUpper(t[i])) == SectorWord[i]
  {
    forall i | 0 <= i < |SectorWord| ensures ToLower(ToUpper(SectorWord[i])) == SectorWord[i] {
    }
  }

  /** The worked examples of the full sector string whose sector is the word
      "сектор", which is then left out. */
  lemma FullSectorWordExamples()
    ensures FullSector(Some("Сектор"), Some("5")) == "5"
    ensures FullSector(Some("СЕКТОР"), Some("VIP")) == "VIP"
  {
    assert EqualsIgnoreCase(SectorWord, "Сектор");
    assert EqualsIgnoreCase(SectorWord, "СЕКТОР");
  }

  /** The worked examples of the full sector string with any other sector. */
  lemma FullSectorExamples()
    ensures FullSector(Some("A1"), Some("VIP")) == "A1 VIP"
    ensures FullSector(Some("A1"), Some("")) == "A1"
    ensures FullSector(None, Some("VIP")) == ""
  {
    assert !EqualsIgnoreCase(SectorWord, "A1");
  }

  /** A seat record. The raw fields can be reassigned through their setters;
      the three full strings are fixed when the record is constructed. */
  class SeatInfo {
    var id: Long
    var sector: Option<string>
    var sectorName: Option<string>
    var row: Option<string>
    var rowName: Option<string>
    var seat: Option<string>
    var seatName: Option<string>
    const fullSector: string
    const fullRow: string
    const fullSeat: string

    /** The derived strings agree with the current raw fields. True after
        construction; a later setter call can make it false. */
    predicate DerivedFieldsCurrent()
      reads this
    {
      fullSector == FullSector(sector, sectorName)
      && fullRow == FullRow(row, rowName)
      && fullSeat == FullSeat(seat, seatName)
    }

    constructor (id: Long, sector: Option<string>, sectorName: Option<string>, row: Option<string>,
                 rowName: Option<string>, seat: Option<string>, seatName: Option<string>)
      ensures this.id == id && this.sector == sector && this.sectorName == sectorName
      ensures this.row == row && this.rowName == rowName && this.seat == seat && this.seatName == seatName
      ensures fullSector == FullSector(sector, sectorName)
      ensures fullRow == FullRow(row, rowName)
      ensures fullSeat == FullSeat(seat, seatName)
      ensures DerivedFieldsCurrent()
    {
      this.id := id;
      this.sector := sector;
      this.sectorName := sectorName;
      this.row := row;
      this.rowName := rowName;
      this.seat := seat;
      this.seatName := seatName;
      fullSector := FullSector(sector, sectorName);
      fullRow := FullRow(row, rowName);
      fullSeat := FullSeat(seat, seatName);
    }

    method SetId(id: Long)
      modifies this`id
      ensures this.id == id
    {
      this.id := id;
    }

    method SetSector(sector: Option<string>)
      modifies this`sector
      ensures this.sector == sector
    {
      this.sector := sector;
    }

    method SetSectorName(sectorName: Option<string>)
      modifies this`sectorName
      ensures this.sectorName == sectorName
    {
      this.sectorName := sectorName;
    }

    method SetRow(row: Option<string>)
      modifies this`row
      ensures this.row == row
    {
      this.row := row;
    }

    method SetRowName(rowName: Option<string>)
      modifies this`rowName
      ensures this.rowName == rowName
    {
      this.rowName := rowName;
    }

    method SetSeat(seat: Option<string>)
      modifies this`seat
      ensures this.seat == seat
    {
      this.seat := seat;
    }

    method SetSeatName(seatName: Option<string>)
      modifies this`seatName
      ensures this.seatName == seatName
    {
      this.seatName := seatName;
    }
  }

  /** A setter changes its raw field and nothing else: the full strings keep
      the values computed at construction, so they go stale. */
  method SetterLeavesFullRowStale() returns (info: SeatInfo)
    ensures info.rowName == Some("7") && info.fullRow == "Ряд 5"
    ensures !info.DerivedFieldsCurrent()
  {
    info := new SeatInfo(1, Some("A1"), Some(""), Some("Ряд"), Some("5"), Some("Место"), Some("12"));
    info.SetRowName(Some("7"));
    assert FullRow(info.row, info.rowName) == "Ряд 7";
  }
}
