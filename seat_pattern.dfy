/** The seat-label pattern

      (?:(?<sector>.*?)\s+(?<sectorName>(?:\p{Lu}|\d).*?)|(?<sectorWithoutName>.*))
      \s+(?<row>Ряд)\s+(?<rowName>.*?)\s+(?<seat>Место)\s+(?<seatName>.*)

    as a declarative grammar (`IsMatch`: which positions a match may take) and
    as a scanner (`Find`) that tries start positions left to right and, at each
    start, tries the extents in the order the regex engine backtracks through
    them: the first alternative before the second, lazy groups shortest first,
    greedy groups longest first. */
module SeatPattern {
  import opened Wrappers
  import opened CharClasses

  /** The row and seat marker words. */
  const RowWord: string := "Ряд"
  const SeatWord: string := "Место"

  /** A group's extent, `s[lo..hi]`. */
  datatype Span = Span(lo: nat, hi: nat)

  /** How the part before the row marker matched. */
  datatype Prefix =
    | Named(sector: Span, sectorName: Span)     // first alternative
    | Unnamed(sectorWithoutName: Span)          // second alternative
  {
    function End(): nat {
      if Named? then sectorName.hi else sectorWithoutName.hi
    }
  }

  /** The seat marker's position and the seat-name extent. */
  datatype SeatPart = SeatPart(seat: nat, seatName: Span)

  /** The row marker's position, the row-name extent and the seat part. */
  datatype Tail = Tail(row: nat, rowName: Span, seat: nat, seatName: Span)

  datatype Match = Match(start: nat, prefix: Prefix, tail: Tail)

  // ---------------------------------------------------------------------------
  // The grammar

  /** `s[lo..hi]` is made of `\s` characters (possibly none). */
  ghost predicate AllSpace(s: string, lo: nat, hi: nat) {
    lo <= hi <= |s| && forall i :: lo <= i < hi ==> IsSpace(s[i])
  }

  /** `\s+` matches `s[lo..hi]`. */
  ghost predicate SpaceRun(s: string, lo: nat, hi: nat) {
    lo < hi && AllSpace(s, lo, hi)
  }

  /** `.*` matches `s[lo..hi]`: no line terminator inside. */
  ghost predicate AnyChars(s: string, lo: nat, hi: nat) {
    lo <= hi <= |s| && forall i :: lo <= i < hi ==> !IsLineTerminator(s[i])
  }

  /** The literal `w` occurs at position `i`. */
  predicate WordAt(s: string, i: nat, w: string) {
    i + |w| <= |s| && forall j :: 0 <= j < |w| ==> s[i + j] == w[j]
  }

  ghost predicate PrefixMatches(s: string, p: nat, pre: Prefix) {
    match pre
    case Named(sector, name) =>
      sector.lo == p && AnyChars(s, sector.lo, sector.hi)
      && SpaceRun(s, sector.hi, name.lo)
      && name.lo < name.hi && AnyChars(s, name.lo, name.hi) && IsUpperOrDigit(s[name.lo])
    case Unnamed(all) =>
      all.lo == p && AnyChars(s, all.lo, all.hi)
  }

  /** `\s+(?<seat>Место)\s+(?<seatName>.*)` matches from position `e` on. */
  ghost predicate SeatPartMatches(s: string, e: nat, sp: SeatPart) {
    SpaceRun(s, e, sp.seat) && WordAt(s, sp.seat, SeatWord)
    && SpaceRun(s, sp.seat + |SeatWord|, sp.seatName.lo) && AnyChars(s, sp.seatName.lo, sp.seatName.hi)
  }

  /** Everything from the first `\s+` before the row marker to the end of the pattern. */
  ghost predicate TailMatches(s: string, q: nat, t: Tail) {
    SpaceRun(s, q, t.row) && WordAt(s, t.row, RowWord)
    && SpaceRun(s, t.row + |RowWord|, t.rowName.lo) && AnyChars(s, t.rowName.lo, t.rowName.hi)
    && SeatPartMatches(s, t.rowName.hi, SeatPart(t.seat, t.seatName))
  }

  /** `m` is one way the whole pattern can match `s`; its groups then lie in
      the pattern's order, without overlap, each marker with space on both sides. */
  ghost function IsMatch(s: string, m: Match): (r: bool)
    ensures r ==> m.start <= m.prefix.End() < m.tail.row
                  && m.tail.row + |RowWord| < m.tail.rowName.lo <= m.tail.rowName.hi < m.tail.seat
                  && m.tail.seat + |SeatWord| < m.tail.seatName.lo <= m.tail.seatName.hi <= |s|
  {
    m.start <= |s| && PrefixMatches(s, m.start, m.prefix) && TailMatches(s, m.prefix.End(), m.tail)
  }

  /** The greedy `.*` of the seat name runs to the end of its line. */
  predicate ReachesLineEnd(s: string, sp: Span) {
    sp.hi <= |s| && (sp.hi == |s| || IsLineTerminator(s[sp.hi]))
  }

  // ---------------------------------------------------------------------------
  // The scanner

  /** The least index in `[lo, hi]` that passes `f`: the extent a lazy group takes. */
  function FirstFrom(f: nat -> bool, lo: nat, hi: nat): (r: Option<nat>)
    ensures r.Some? ==> lo <= r.value <= hi && f(r.value)
    decreases hi + 1 - lo
  {
    if lo > hi then None
    else if f(lo) then Some(lo)
    else FirstFrom(f, lo + 1, hi)
  }

  /** The greatest index in `[lo, hi]` that passes `f`: the extent a greedy group takes. */
  function LastFrom(f: nat -> bool, lo: nat, hi: nat): (r: Option<nat>)
    ensures r.Some? ==> lo <= r.value <= hi && f(r.value)
    decreases hi + 1 - lo
  {
    if lo > hi then None
    else if f(hi) then Some(hi)
    else if hi == 0 then None
    else LastFrom(f, lo, hi - 1)
  }

  /** Where a greedy run of `\s` starting at `i` ends. */
  function SpaceEnd(s: string, i: nat): (j: nat)
    requires i <= |s|
    ensures i <= j <= |s|
    decreases |s| - i
  {
    if i == |s| || !IsSpace(s[i]) then i else SpaceEnd(s, i + 1)
  }

  /** Where a greedy `.*` starting at `i` ends: at the next line terminator. */
  function LineEnd(s: string, i: nat): (j: nat)
    requires i <= |s|
    ensures i <= j <= |s|
    decreases |s| - i
  {
    if i == |s| || IsLineTerminator(s[i]) then i else LineEnd(s, i + 1)
  }

  /** `\s+(?<seat>Место)\s+(?<seatName>.*)` after a row name ending at `e`. The
      `\s+` runs are taken whole: a shorter run would leave a space where the
      marker or the name must start. */
  function SeatFrom(s: string, e: nat): (r: Option<SeatPart>)
    requires e <= |s|
    ensures r.Some? ==> e < r.value.seat && r.value.seat + |SeatWord| < r.value.seatName.lo <= |s|
  {
    var f := SpaceEnd(s, e);
    if f == e || !WordAt(s, f, SeatWord) then None
    else
      var g := SpaceEnd(s, f + |SeatWord|);
      if g == f + |SeatWord| then None
      else Some(SeatPart(f, Span(g, LineEnd(s, g))))
  }

  /** The pattern from the `\s+` before the row marker on, tried at position `q`.
      The row name is lazy: the shortest extent after the whole space run that
      lets the seat part match. When none does, the engine gives one space back
      to the row name's run, which can only help if the seat marker follows
      that space run directly; the row name is then empty. */
  function TailFrom(s: string, q: nat): (r: Option<Tail>)
    requires q <= |s|
    ensures r.Some? ==> q < r.value.row
  {
    var w := SpaceEnd(s, q);
    if w == q || !WordAt(s, w, RowWord) then None
    else
      var a := w + |RowWord|;
      var u := SpaceEnd(s, a);
      if u == a then None
      else
        match FirstFrom(SeatTest(s), u, LineEnd(s, u))
        case Some(e) =>
          var sp := SeatFrom(s, e).value;
          Some(Tail(w, Span(u, e), sp.seat, sp.seatName))
        case None =>
          if u - a >= 2 && SeatFrom(s, u - 1).Some? then
            var sp := SeatFrom(s, u - 1).value;
            Some(Tail(w, Span(u - 1, u - 1), sp.seat, sp.seatName))
          else None
  }

  /** The first alternative with the sector group ending at `a`:
      `\s+(?<sectorName>(?:\p{Lu}|\d).*?)` followed by the tail. The result is
      the end of the lazy sector name: the first end after which the tail matches. */
  function NameEnd(s: string, a: nat): (r: Option<nat>)
    requires a <= |s|
    ensures r.Some? ==> a < SpaceEnd(s, a) < r.value <= |s|
  {
    var b := SpaceEnd(s, a);
    if b == a || b == |s| || !IsUpperOrDigit(s[b]) then None
    else FirstFrom(TailTest(s), b + 1, LineEnd(s, b))
  }

  /** The pattern tried at start position `p`: the first alternative with the
      shortest (lazy) sector that works, else the second with the longest
      (greedy) leading text that works. */
  function MatchAt(s: string, p: nat): (r: Option<Match>)
    requires p <= |s|
    ensures r.Some? ==> r.value.start == p
  {
    match FirstFrom(NameTest(s), p, LineEnd(s, p))
    case Some(a) =>
      var c := NameEnd(s, a).value;
      Some(Match(p, Named(Span(p, a), Span(SpaceEnd(s, a), c)), TailFrom(s, c).value))
    case None =>
      match LastFrom(TailTest(s), p, LineEnd(s, p))
      case Some(a) => Some(Match(p, Unnamed(Span(p, a)), TailFrom(s, a).value))
      case None => None
  }

  /** `Matcher.find()`: the match at the leftmost start position where there is one. */
  function Find(s: string): (r: Option<Match>)
    ensures r.Some? ==> r.value.start <= |s| && MatchAt(s, r.value.start) == r
  {
    match FirstFrom(MatchTest(s), 0, |s|)
    case Some(p) => MatchAt(s, p)
    case None => None
  }

  // The tests the searches apply to each candidate position.

  function SeatTest(s: string): nat -> bool {
    (e: nat) => e <= |s| && SeatFrom(s, e).Some?
  }

  function TailTest(s: string): nat -> bool {
    (q: nat) => q <= |s| && TailFrom(s, q).Some?
  }

  function NameTest(s: string): nat -> bool {
    (a: nat) => a <= |s| && NameEnd(s, a).Some?
  }

  function MatchTest(s: string): nat -> bool {
    (p: nat) => p <= |s| && MatchAt(s, p).Some?
  }

  // ---------------------------------------------------------------------------
  // The greedy runs

  /** `SpaceEnd` takes the whole run of spaces. */
  lemma {:induction false} SpaceEndIsRun(s: string, i: nat)
    requires i <= |s|
    ensures AllSpace(s, i, SpaceEnd(s, i)) && (SpaceEnd(s, i) == |s| || !IsSpace(s[SpaceEnd(s, i)]))
    decreases |s| - i
  {
    if i < |s| && IsSpace(s[i]) {
      SpaceEndIsRun(s, i + 1);
    }
  }

  /** `LineEnd` takes the rest of the line. */
  lemma {:induction false} LineEndIsLine(s: string, i: nat)
    requires i <= |s|
    ensures AnyChars(s, i, LineEnd(s, i)) && (LineEnd(s, i) == |s| || IsLineTerminator(s[LineEnd(s, i)]))
    decreases |s| - i
  {
    if i < |s| && !IsLineTerminator(s[i]) {
      LineEndIsLine(s, i + 1);
    }
  }

  /** A space run followed by a character that is not a space is the greedy run. */
  lemma {:induction false} SpaceEndAt(s: string, i: nat, j: nat)
    requires AllSpace(s, i, j) && (j == |s| || !IsSpace(s[j]))
    ensures SpaceEnd(s, i) == j
    decreases j - i
  {
    if i < j {
      SpaceEndAt(s, i + 1, j);
    }
  }

  /** The greedy space run covers every space run from the same start. */
  lemma {:induction false} SpaceEndCovers(s: string, i: nat, j: nat)
    requires AllSpace(s, i, j)
    ensures j <= SpaceEnd(s, i)
    decreases j - i
  {
    if i < j {
      SpaceEndCovers(s, i + 1, j);
    }
  }

  /** The greedy `.*` covers every `.*` extent from the same start. */
  lemma {:induction false} LineEndCovers(s: string, i: nat, j: nat)
    requires AnyChars(s, i, j)
    ensures j <= LineEnd(s, i)
    decreases j - i
  {
    if i < j {
      LineEndCovers(s, i + 1, j);
    }
  }

  // ---------------------------------------------------------------------------
  // Soundness: what the scanner returns is a match

  lemma SeatFromSound(s: string, e: nat)
    requires e <= |s| && SeatFrom(s, e).Some?
    ensures SeatPartMatches(s, e, SeatFrom(s, e).value) && ReachesLineEnd(s, SeatFrom(s, e).value.seatName)
  {
    var f := SpaceEnd(s, e);
    SpaceEndIsRun(s, e);
    SpaceEndIsRun(s, f + |SeatWord|);
    LineEndIsLine(s, SpaceEnd(s, f + |SeatWord|));
  }

  /** The tail `TailFrom` builds around a row name found by the lazy search. */
  lemma RowNameFoundSound(s: string, q: nat, e: nat)
    requires q <= |s| && q < SpaceEnd(s, q) && WordAt(s, SpaceEnd(s, q), RowWord)
    requires var a := SpaceEnd(s, q) + |RowWord|;
             a < SpaceEnd(s, a) <= e <= LineEnd(s, SpaceEnd(s, a)) && SeatFrom(s, e).Some?
    ensures var w := SpaceEnd(s, q);
            var u := SpaceEnd(s, w + |RowWord|);
            var sp := SeatFrom(s, e).value;
            TailMatches(s, q, Tail(w, Span(u, e), sp.seat, sp.seatName)) && ReachesLineEnd(s, sp.seatName)
  {
    var a := SpaceEnd(s, q) + |RowWord|;
    SpaceEndIsRun(s, q);
    SpaceEndIsRun(s, a);
    SeatFromSound(s, e);
    LineEndIsLine(s, SpaceEnd(s, a));
  }

  /** The tail `TailFrom` builds when it gives one space back to the row name. */
  lemma SpaceGivenBackSound(s: string, q: nat)
    requires q <= |s| && q < SpaceEnd(s, q) && WordAt(s, SpaceEnd(s, q), RowWord)
    requires var a := SpaceEnd(s, q) + |RowWord|;
             SpaceEnd(s, a) - a >= 2 && SeatFrom(s, SpaceEnd(s, a) - 1).Some?
    ensures var w := SpaceEnd(s, q);
            var u := SpaceEnd(s, w + |RowWord|);
            var sp := SeatFrom(s, u - 1).value;
            TailMatches(s, q, Tail(w, Span(u - 1, u - 1), sp.seat, sp.seatName)) && ReachesLineEnd(s, sp.seatName)
  {
    var a := SpaceEnd(s, q) + |RowWord|;
    SpaceEndIsRun(s, q);
    SpaceEndIsRun(s, a);
    SeatFromSound(s, SpaceEnd(s, a) - 1);
  }

  lemma TailFromSound(s: string, q: nat)
    requires q <= |s| && TailFrom(s, q).Some?
    ensures TailMatches(s, q, TailFrom(s, q).value) && ReachesLineEnd(s, TailFrom(s, q).value.seatName)
  {
    var u := SpaceEnd(s, SpaceEnd(s, q) + |RowWord|);
    match FirstFrom(SeatTest(s), u, LineEnd(s, u))
    case Some(e) =>
      RowNameFoundSound(s, q, e);
    case None =>
      SpaceGivenBackSound(s, q);
  }

  /** What a successful `NameEnd` found: a space run, then the sector name
      starting with an upper-case letter or a digit, then a tail. */
  lemma NameEndSound(s: string, a: nat)
    requires a <= |s| && NameEnd(s, a).Some?
    ensures var b := SpaceEnd(s, a);
            var c := NameEnd(s, a).value;
            b < c <= LineEnd(s, b) && IsUpperOrDigit(s[b]) && TailFrom(s, c).Some?
  {
  }

  lemma NamedSound(s: string, p: nat, a: nat)
    requires p <= |s| && p <= a <= LineEnd(s, p) && NameEnd(s, a).Some?
    ensures var c := NameEnd(s, a).value;
            PrefixMatches(s, p, Named(Span(p, a), Span(SpaceEnd(s, a), c)))
            && TailFrom(s, c).Some?
  {
    var b := SpaceEnd(s, a);
    LineEndIsLine(s, p);
    SpaceEndIsRun(s, a);
    NameEndSound(s, a);
    LineEndIsLine(s, b);
  }

  lemma MatchAtSound(s: string, p: nat)
    requires p <= |s| && MatchAt(s, p).Some?
    ensures IsMatch(s, MatchAt(s, p).value) && ReachesLineEnd(s, MatchAt(s, p).value.tail.seatName)
  {
    var lim := LineEnd(s, p);
    match FirstFrom(NameTest(s), p, lim)
    case Some(a) =>
      NamedSound(s, p, a);
      TailFromSound(s, NameEnd(s, a).value);
    case None =>
      var a := LastFrom(TailTest(s), p, lim).value;
      TailFromSound(s, a);
      LineEndIsLine(s, p);
  }

  /** What `Find` returns is a match of the pattern, and its seat name runs
      to the end of the line. */
  lemma FindSound(s: string)
    requires Find(s).Some?
    ensures IsMatch(s, Find(s).value) && ReachesLineEnd(s, Find(s).value.tail.seatName)
  {
    MatchAtSound(s, Find(s).value.start);
  }

  /** The order in which `MatchAt` tries the extents: the first alternative
      whenever any sector end on the line admits it, the shortest such
      sector, and otherwise the longest leading text that a tail follows. */
  lemma MatchAtPriority(s: string, p: nat)
    requires p <= |s| && MatchAt(s, p).Some?
    ensures var pre := MatchAt(s, p).value.prefix;
            pre.Named? ==> forall a :: p <= a < pre.sector.hi ==> !NameTest(s)(a)
    ensures var pre := MatchAt(s, p).value.prefix;
            pre.Unnamed? ==> (forall a :: p <= a <= LineEnd(s, p) ==> !NameTest(s)(a))
                             && forall a :: pre.sectorWithoutName.hi < a <= LineEnd(s, p) ==> !TailTest(s)(a)
  {
    var lim := LineEnd(s, p);
    match FirstFrom(NameTest(s), p, lim)
    case Some(a0) =>
      forall a | p <= a < a0 ensures !NameTest(s)(a) {
        FirstFromIsLeast(NameTest(s), p, lim, a);
      }
    case None =>
      forall a | p <= a <= lim ensures !NameTest(s)(a) {
        if NameTest(s)(a) {
          FirstFromFinds(NameTest(s), p, lim, a);
        }
      }
      var b := LastFrom(TailTest(s), p, lim).value;
      forall a | b < a <= lim ensures !TailTest(s)(a) {
        LastFromIsGreatest(TailTest(s), p, lim, a);
      }
  }

  // ---------------------------------------------------------------------------
  // Completeness: the scanner misses no match

  lemma WordAtStart(s: string, i: nat, w: string)
    requires WordAt(s, i, w) && |w| > 0
    ensures s[i] == w[0]
  {
    assert s[i + 0] == w[0];
  }

  /** The lazy search stops at the first index that passes, so it stops no
      later than any index that passes. */
  lemma {:induction false} FirstFromFinds(f: nat -> bool, lo: nat, hi: nat, k: nat)
    requires lo <= k <= hi && f(k)
    ensures FirstFrom(f, lo, hi).Some? && FirstFrom(f, lo, hi).value <= k
    decreases k - lo
  {
    if !f(lo) {
      FirstFromFinds(f, lo + 1, hi, k);
    }
  }

  /** Nothing before the index the lazy search returns passes. */
  lemma {:induction false} FirstFromIsLeast(f: nat -> bool, lo: nat, hi: nat, k: nat)
    requires FirstFrom(f, lo, hi).Some? && lo <= k < FirstFrom(f, lo, hi).value
    ensures !f(k)
    decreases hi + 1 - lo
  {
    if k > lo {
      FirstFromIsLeast(f, lo + 1, hi, k);
    }
  }

  /** The greedy search stops at the last index that passes. */
  lemma {:induction false} LastFromFinds(f: nat -> bool, lo: nat, hi: nat, k: nat)
    requires lo <= k <= hi && f(k)
    ensures LastFrom(f, lo, hi).Some? && k <= LastFrom(f, lo, hi).value
    decreases hi - k
  {
    if !f(hi) {
      LastFromFinds(f, lo, hi - 1, k);
    }
  }

  /** Nothing after the index the greedy search returns passes. */
  lemma {:induction false} LastFromIsGreatest(f: nat -> bool, lo: nat, hi: nat, k: nat)
    requires LastFrom(f, lo, hi).Some? && LastFrom(f, lo, hi).value < k <= hi
    ensures !f(k)
    decreases hi + 1 - lo
  {
    if k < hi {
      LastFromIsGreatest(f, lo, hi - 1, k);
    }
  }

  lemma SeatFromComplete(s: string, e: nat, sp: SeatPart)
    requires SeatPartMatches(s, e, sp)
    ensures SeatFrom(s, e).Some?
  {
    WordAtStart(s, sp.seat, SeatWord);
    SpaceEndAt(s, e, sp.seat);
    SpaceEndCovers(s, sp.seat + |SeatWord|, sp.seatName.lo);
  }

  /** `TailFrom` succeeds once its row marker is in place and either search
      for the seat part succeeds. */
  lemma TailFromSome(s: string, q: nat, w: nat)
    requires q < w <= |s| && w == SpaceEnd(s, q) && WordAt(s, w, RowWord)
    requires SpaceEnd(s, w + |RowWord|) > w + |RowWord|
    requires var u := SpaceEnd(s, w + |RowWord|);
             FirstFrom(SeatTest(s), u, LineEnd(s, u)).Some?
             || (u - (w + |RowWord|) >= 2 && SeatFrom(s, u - 1).Some?)
    ensures TailFrom(s, q).Some?
  {
  }

  /** In a tail the grammar allows, the row marker sits where `TailFrom`
      looks for it, and the row name starts inside or after the space run
      that follows the marker. */
  lemma RowMarkerFound(s: string, q: nat, t: Tail)
    requires TailMatches(s, q, t)
    ensures SpaceEnd(s, q) == t.row && WordAt(s, t.row, RowWord)
    ensures t.row + |RowWord| < t.rowName.lo <= SpaceEnd(s, t.row + |RowWord|)
  {
    WordAtStart(s, t.row, RowWord);
    SpaceEndAt(s, q, t.row);
    SpaceEndCovers(s, t.row + |RowWord|, t.rowName.lo);
  }

  /** A row name that ends after the whole space run is found by the lazy search. */
  lemma RowNameAfterRun(s: string, q: nat, w: nat, e: nat, sp: SeatPart)
    requires q < w <= |s| && w == SpaceEnd(s, q) && WordAt(s, w, RowWord)
    requires w + |RowWord| < SpaceEnd(s, w + |RowWord|) <= e
    requires AnyChars(s, SpaceEnd(s, w + |RowWord|), e) && SeatPartMatches(s, e, sp)
    ensures TailFrom(s, q).Some?
  {
    var u := SpaceEnd(s, w + |RowWord|);
    LineEndCovers(s, u, e);
    SeatFromComplete(s, e, sp);
    FirstFromFinds(SeatTest(s), u, LineEnd(s, u), e);
    TailFromSome(s, q, w);
  }

  /** A row name that ends inside the space run after the row marker: the seat
      marker follows that run directly, the run holds at least two spaces, and
      the engine finds the match by giving one space back. */
  lemma RowNameInRun(s: string, q: nat, w: nat, e: nat, sp: SeatPart)
    requires q < w <= |s| && w == SpaceEnd(s, q) && WordAt(s, w, RowWord)
    requires w + |RowWord| < e < SpaceEnd(s, w + |RowWord|) && SeatPartMatches(s, e, sp)
    ensures TailFrom(s, q).Some?
  {
    var a := w + |RowWord|;
    var u := SpaceEnd(s, a);
    SeatMarkerEndsRun(s, a, e, sp);
    SeatFromComplete(s, u - 1, sp);
    TailFromSome(s, q, w);
  }

  /** A seat part starting inside a space run starts where the run ends, so it
      also starts one space before that end. */
  lemma SeatMarkerEndsRun(s: string, a: nat, e: nat, sp: SeatPart)
    requires a <= |s| && a < e < SpaceEnd(s, a) && SeatPartMatches(s, e, sp)
    ensures sp.seat == SpaceEnd(s, a) && SeatPartMatches(s, SpaceEnd(s, a) - 1, sp)
  {
    var u := SpaceEnd(s, a);
    SpaceEndIsRun(s, a);
    WordAtStart(s, sp.seat, SeatWord);
    SpaceEndAt(s, e, sp.seat);
    SpaceEndAt(s, e, u);
  }

  lemma TailComplete(s: string, q: nat, t: Tail)
    requires TailMatches(s, q, t)
    ensures TailFrom(s, q).Some?
  {
    RowMarkerFound(s, q, t);
    var u := SpaceEnd(s, t.row + |RowWord|);
    var sp := SeatPart(t.seat, t.seatName);
    if t.rowName.hi >= u {
      assert AnyChars(s, u, t.rowName.hi);
      RowNameAfterRun(s, q, t.row, t.rowName.hi, sp);
    } else {
      RowNameInRun(s, q, t.row, t.rowName.hi, sp);
    }
  }

  /** The first alternative's sector may end at `a` when the sector name the
      grammar allows there is followed by a tail. */
  lemma NameEndComplete(s: string, a: nat, name: Span)
    requires SpaceRun(s, a, name.lo) && name.lo < name.hi && AnyChars(s, name.lo, name.hi)
    requires IsUpperOrDigit(s[name.lo]) && TailFrom(s, name.hi).Some?
    ensures NameEnd(s, a).Some?
  {
    SectorNameStart(s, a, name.lo);
    NameSearchFinds(s, name.lo, name.hi);
    NameEndSome(s, a);
  }

  /** The sector name starts where the space run before it ends. */
  lemma SectorNameStart(s: string, a: nat, b: nat)
    requires SpaceRun(s, a, b) && b < |s| && IsUpperOrDigit(s[b])
    ensures SpaceEnd(s, a) == b
  {
    SpaceEndAt(s, a, b);
  }

  /** The lazy search for the sector name's end reaches every end on the
      same line that a tail follows. */
  lemma NameSearchFinds(s: string, b: nat, c: nat)
    requires b < c && AnyChars(s, b, c) && TailFrom(s, c).Some?
    ensures FirstFrom(TailTest(s), b + 1, LineEnd(s, b)).Some?
  {
    LineEndCovers(s, b, c);
    FirstFromFinds(TailTest(s), b + 1, LineEnd(s, b), c);
  }

  /** `NameEnd` succeeds when the sector name's first character is in place
      and the search for its end succeeds. */
  lemma NameEndSome(s: string, a: nat)
    requires a <= |s| && a < SpaceEnd(s, a) < |s| && IsUpperOrDigit(s[SpaceEnd(s, a)])
    requires var b := SpaceEnd(s, a); FirstFrom(TailTest(s), b + 1, LineEnd(s, b)).Some?
    ensures NameEnd(s, a).Some?
  {
  }

  /** `MatchAt` succeeds when either alternative's search succeeds. */
  lemma MatchAtSome(s: string, p: nat)
    requires p <= |s|
    requires FirstFrom(NameTest(s), p, LineEnd(s, p)).Some? || LastFrom(TailTest(s), p, LineEnd(s, p)).Some?
    ensures MatchAt(s, p).Some?
  {
  }

  lemma MatchAtComplete(s: string, m: Match)
    requires IsMatch(s, m)
    ensures MatchAt(s, m.start).Some?
  {
    var p := m.start;
    TailComplete(s, m.prefix.End(), m.tail);
    match m.prefix
    case Named(sector, name) =>
      LineEndCovers(s, p, sector.hi);
      NameEndComplete(s, sector.hi, name);
      FirstFromFinds(NameTest(s), p, LineEnd(s, p), sector.hi);
    case Unnamed(all) =>
      LineEndCovers(s, p, all.hi);
      LastFromFinds(TailTest(s), p, LineEnd(s, p), all.hi);
    MatchAtSome(s, p);
  }

  /** Every way the pattern can match is found: `Find` fails only when the
      pattern matches nowhere, and it starts no later than any match. */
  lemma FindComplete(s: string, m: Match)
    requires IsMatch(s, m)
    ensures Find(s).Some? && Find(s).value.start <= m.start
  {
    MatchAtComplete(s, m);
    FirstFromFinds(MatchTest(s), 0, |s|, m.start);
  }
}
