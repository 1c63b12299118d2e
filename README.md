# Seat-label parser, modelled in Dafny

The system turns a free-text ticket seat label such as `A1 Ряд 5 Место 12` into a
seat record. `SeatParser.parseSeat(label, id)` works in four steps:
- It rejects a `null` or blank label.
- It searches the label with one regular expression, whose groups are a sector,
  an optional sector name, the row marker `Ряд` with a row name, and the seat
  marker `Место` with a seat name.
- It takes the groups of the leftmost match. The sector name has its twelve
  Cyrillic look-alike capitals (С Е Т Н У О Р Х А В К М) replaced by the Latin
  capitals they resemble.
- It builds a `SeatInfo`.

`SeatInfo` keeps the seven raw values in mutable fields. Its constructor computes
three display strings once: the full sector, row and seat.

The model has seven modules:

- `Wrappers`: `Option`, standing for a nullable Java value. Its member functions are
  the `java.util.Optional` operations the code chains together.
- `CharClasses`: the Java character notions the parser relies on:
  - the regex classes `\s`, `.` (no line terminator) and `(?:\p{Lu}|\d)`;
  - `String.trim()` and `String.equalsIgnoreCase`.
- `Homoglyphs`: the two replacement tables and the specification `Fold`, plus the
  replacement written as the source writes it. That is a method that copies the
  string into an array and overwrites table letters in place inside two nested
  loops, with an `isModified` flag. It is proved to compute `Fold`.
- `SeatInfoModel`:
  - the three display strings as functions, written as the same `Optional` chains;
  - the `SeatInfo` class, with mutable raw fields, Lombok-style setters, and
    `const` derived fields fixed by the constructor.
- `SeatPattern`: the regular expression, in two forms:
  - as a grammar (`IsMatch`: every way the pattern can match a string);
  - as a scanner (`Find`). It tries start positions left to right and, at each
    start, tries the extents in the order the backtracking engine does:
    - the first alternative before the second;
    - lazy groups shortest first and greedy groups longest first;
    - when the lazy row name cannot be placed after the whole space run, one
      space of that run is given back.

  The scanner is proved sound (what it returns is a match, and the seat name
  runs to the end of its line) and complete (whenever any match exists, it
  finds one that starts no later).
- `SeatParser`: the groups of a match, the specifications `Extract` and `Parse`,
  and the methods `ParseSeat` and `ExtractSeatInfo`. The methods build the
  `SeatInfo` object and are proved to agree with `Parse`. The lemmas relate a
  parse to the grammar.
- `SeatExamples`: a worked example. The label `A1 Ряд 5 Место 12` has only one
  match that starts at 0 and whose seat name reaches the end of the line, which
  is the one `find()` returns; parsing it gives sector "A1", no sector name, row "5" and seat "12".

One consequence is proved rather than assumed (`ExtractAcceptsEveryMatch`,
`ParseSucceedsIffMatch`). Every group that `extractSeatInfo` checks for `null`
lies in a mandatory part of the pattern, so after a successful `find()` the check
at `SeatParser.java:44` never refuses a record. A label is parsed exactly when
the pattern matches it somewhere.

## Model

| member | source | states |
|---|---|---|
| Wrappers.Option.Map | src/test/SeatParser.java:31 | `Optional.map`: present exactly when the input is present, holding `f` of its value |
| Wrappers.Option.FlatMap | src/test/SeatParser.java:33 | `Optional.flatMap`: empty stays empty, a present value gives whatever `f` returns |
| Wrappers.Option.Filter | src/test/SeatParser.java:30-32 | `Optional.filter`: present exactly when the value is present and passes the test, and then unchanged |
| Wrappers.Option.GetOr | src/test/SeatParser.java:38 | `Optional.orElse`: the present value, else the default |
| Wrappers.Option.Or | src/test/SeatParser.java:37 | `ofNullable(x).orElse(y)`: `x` when present, else `y` (which may be absent) |
| CharClasses.TrimLeading | src/test/SeatParser.java:30 | the result is a suffix of the input; every dropped character is at most U+0020 and the first kept one is above it |
| CharClasses.TrimTrailing | src/test/SeatParser.java:30 | the result is a prefix of the input; every dropped character is at most U+0020 and the last kept one is above it |
| CharClasses.TrimEmptyIffBlank | src/test/SeatParser.java:30 | `trim()` yields the empty string exactly when every character is at most U+0020 (both directions) |
| CharClasses.IsSpace | src/test/SeatParser.java:22 | `\s` is the six ASCII white-space characters; each of them is one that `trim()` drops |
| CharClasses.IsLineTerminator | src/test/SeatParser.java:22 | the characters `.` refuses; among them, exactly those at most U+0020 are also `\s` |
| CharClasses.IsUpperOrDigit | src/test/SeatParser.java:22 | a character that can start the sector name is neither `\s` nor a line terminator, and `trim()` keeps it |
| CharClasses.Trim | src/test/SeatParser.java:30 | `trim()`: no longer than the input, and a non-empty result starts and ends with a character above U+0020 |
| CharClasses.ToUpper | src/test/SeatInfo.java:41 | `Character.toUpperCase` for ASCII and basic Cyrillic: leaves no lower-case letter of those ranges, keeps the lower-case form of its input, and leaves every other character unchanged |
| CharClasses.ToLower | src/test/SeatInfo.java:41 | `Character.toLowerCase` for ASCII and basic Cyrillic: leaves no capital of those ranges, and leaves every character that is not a capital unchanged |
| CharClasses.CharEqualsIgnoreCase | src/test/SeatInfo.java:41 | two characters are equal ignoring case exactly when upper-casing and then lower-casing makes them equal |
| CharClasses.EqualsIgnoreCase | src/test/SeatInfo.java:41 | strings equal ignoring case have the same length, and every string equals itself ignoring case |
| Homoglyphs.LookupFrom | src/test/SeatParser.java:65-71 | the inner table scan from entry `j`: the replacement of the first entry equal to `c`, or `c` when no entry from `j` on matches |
| Homoglyphs.FoldChar | src/test/SeatParser.java:24-25 | a table letter becomes the Latin letter at the same index; every other character is unchanged |
| Homoglyphs.Fold | src/test/SeatParser.java:60-72 | folding preserves length and replaces each character by its `FoldChar` |
| Homoglyphs.LatinCharsAreNotFolded | src/test/SeatParser.java:24-25 | no entry of the Latin table occurs in the Cyrillic table |
| Homoglyphs.FoldCharIdempotent | src/test/SeatParser.java:24-25 | folding a character twice is folding it once, and the result is never a table letter |
| Homoglyphs.FoldCharLatinOrSame | src/test/SeatParser.java:24-25 | a character folds to itself or to a Latin capital A–Z |
| Homoglyphs.FoldIdempotent | src/test/SeatParser.java:60-72 | `Fold(Fold(s)) == Fold(s)`, and a folded string holds no table letter |
| Homoglyphs.FoldUnchangedIff | src/test/SeatParser.java:74 | folding leaves a string unchanged exactly when it holds no table letter, which is when the original string is returned |
| Homoglyphs.FoldCharKeepsUpperOrDigit | src/test/SeatParser.java:22-25 | folding keeps a capital letter or digit a capital letter or digit |
| Homoglyphs.PerformCyrillicReplacement | src/test/SeatParser.java:59-75 | the in-place nested-loop replacement over a copied array returns exactly `Fold(input)`; when no letter was replaced, it returns the input |
| Homoglyphs.ReplaceCyrillicChars | src/test/SeatParser.java:51-56 | `null` stays `null`; any other string (the empty one returned without scanning) becomes its fold |
| SeatInfoModel.FullSector | src/test/SeatInfo.java:37-43 | `""` without a sector; the sector alone when the name is absent or empty; the name alone when the sector equals "сектор" ignoring case; otherwise sector, space, name |
| SeatInfoModel.FullRow | src/test/SeatInfo.java:45-50 | row, space, row name when both are present, else `""` |
| SeatInfoModel.FullSeat | src/test/SeatInfo.java:52-57 | seat, space, seat name when both are present, else `""` |
| SeatInfoModel.SectorWordIgnoringCase | src/test/SeatInfo.java:41 | a sector equals "сектор" ignoring case exactly when it has six letters whose upper-cased, then lower-cased forms spell "сектор" |
| SeatInfoModel.FullSectorWordExamples | src/test/SeatInfo.java:37-43 | worked cases: "Сектор" and "СЕКТОР" with a name give the name alone |
| SeatInfoModel.FullSectorExamples | src/test/SeatInfo.java:37-43 | worked cases: "A1" with "VIP" gives "A1 VIP", an empty name gives the sector, no sector gives `""` |
| SeatInfoModel.SeatInfo.constructor | src/test/SeatInfo.java:24-35 | the seven values are stored as given, and the three full strings are computed from them |
| SeatInfoModel.SeatInfo.SetId | src/test/SeatInfo.java:13 | the Lombok setter replaces `id` and may change no other field |
| SeatInfoModel.SeatInfo.SetSector | src/test/SeatInfo.java:14 | the setter replaces `sector` and may change no other field |
| SeatInfoModel.SeatInfo.SetSectorName | src/test/SeatInfo.java:15 | the setter replaces `sectorName` and may change no other field |
| SeatInfoModel.SeatInfo.SetRow | src/test/SeatInfo.java:16 | the setter replaces `row` and may change no other field |
| SeatInfoModel.SeatInfo.SetRowName | src/test/SeatInfo.java:17 | the setter replaces `rowName` and may change no other field |
| SeatInfoModel.SeatInfo.SetSeat | src/test/SeatInfo.java:18 | the setter replaces `seat` and may change no other field |
| SeatInfoModel.SeatInfo.SetSeatName | src/test/SeatInfo.java:19 | the setter replaces `seatName` and may change no other field |
| SeatInfoModel.SetterLeavesFullRowStale | src/test/SeatInfo.java:20-34 | after `setRowName`, `fullRow` still holds the value computed at construction and no longer agrees with the raw fields |
| SeatPattern.FirstFrom | src/test/SeatParser.java:22 | the lazy search: a returned extent is in range and passes the test |
| SeatPattern.LastFrom | src/test/SeatParser.java:22 | the greedy search: a returned extent is in range and passes the test |
| SeatPattern.FirstFromFinds | src/test/SeatParser.java:22 | the lazy search finds an extent whenever one in range passes, and stops no later than it |
| SeatPattern.FirstFromIsLeast | src/test/SeatParser.java:22 | no extent shorter than the one the lazy search returns passes |
| SeatPattern.LastFromFinds | src/test/SeatParser.java:22 | the greedy search finds an extent whenever one in range passes, and stops no earlier than it |
| SeatPattern.LastFromIsGreatest | src/test/SeatParser.java:22 | no extent longer than the one the greedy search returns passes |
| SeatPattern.SpaceEnd | src/test/SeatParser.java:22 | a greedy `\s+` run ends within the string, at or after its start |
| SeatPattern.SpaceEndIsRun | src/test/SeatParser.java:22 | the greedy run consists of `\s` characters and stops at the end or at a character that is not `\s` |
| SeatPattern.LineEnd | src/test/SeatParser.java:22 | a greedy `.*` ends within the string, at or after its start |
| SeatPattern.LineEndIsLine | src/test/SeatParser.java:22 | the greedy `.*` holds no line terminator and stops at the end or at a line terminator |
| SeatPattern.SeatFrom | src/test/SeatParser.java:22 | the `\s+Место\s+(.*)` part: the marker comes after a space, and the seat name after another |
| SeatPattern.SeatFromSound | src/test/SeatParser.java:22 | what `SeatFrom` returns matches the grammar, and its seat name runs to the end of the line |
| SeatPattern.SeatFromComplete | src/test/SeatParser.java:22 | `SeatFrom` succeeds wherever the grammar lets the seat part match |
| SeatPattern.TailFrom | src/test/SeatParser.java:22 | the part from `\s+Ряд` on, with a lazy row name: the row marker comes after the start |
| SeatPattern.TailFromSound | src/test/SeatParser.java:22 | what `TailFrom` returns matches the grammar, and its seat name runs to the end of the line |
| SeatPattern.RowNameInRun | src/test/SeatParser.java:22 | a row name the grammar places inside the space run after `Ряд` is found by giving one space back |
| SeatPattern.TailComplete | src/test/SeatParser.java:22 | `TailFrom` succeeds wherever the grammar lets the tail match |
| SeatPattern.NameEnd | src/test/SeatParser.java:22 | the `\s+(?<sectorName>(?:\p{Lu}\|\d).*?)` part: a lazy sector name after a non-empty space run |
| SeatPattern.NameEndComplete | src/test/SeatParser.java:22 | `NameEnd` succeeds wherever the grammar allows a sector name that a tail follows |
| SeatPattern.MatchAt | src/test/SeatParser.java:22 | the pattern tried at one start position; the match starts there |
| SeatPattern.MatchAtSound | src/test/SeatParser.java:22 | what `MatchAt` returns matches the grammar, and its seat name runs to the end of the line |
| SeatPattern.MatchAtPriority | src/test/SeatParser.java:22 | the first alternative is taken whenever any sector end allows it, with the shortest sector; otherwise the second, with the longest leading text |
| SeatPattern.MatchAtComplete | src/test/SeatParser.java:22 | `MatchAt` succeeds at every start where the grammar allows a match |
| SeatPattern.IsMatch | src/test/SeatParser.java:22 | the grammar of the pattern; in every match the groups lie in the pattern's order without overlap, each marker with at least one space on either side |
| SeatPattern.Find | src/test/SeatParser.java:32 | `Matcher.find()`: a returned match is the one `MatchAt` gives at its start |
| SeatPattern.FindSound | src/test/SeatParser.java:32 | what `Find` returns matches the grammar, and its seat name runs to the end of the line |
| SeatPattern.FindComplete | src/test/SeatParser.java:32 | whenever the pattern matches anywhere, `Find` finds a match starting no later |
| SeatParser.GroupsOf | src/test/SeatParser.java:37-42 | the groups of exactly one alternative are present; `row` is "Ряд" and `seat` is "Место"; a sector name is non-empty and starts with a capital letter or digit |
| SeatParser.Extract | src/test/SeatParser.java:36-49 | rejected exactly when the sector or a required group is `null`; the sector prefers `sectorWithoutName`; the sector name is folded or `""`; `id` and the other groups are copied |
| SeatParser.Parse | src/test/SeatParser.java:28-34 | a `null` or blank label gives no record; a record carries the given `id` |
| SeatParser.ExtractSeatInfo | src/test/SeatParser.java:36-49 | builds a fresh `SeatInfo` exactly when `Extract` accepts, holding `Extract`'s values |
| SeatParser.ParseSeat | src/test/SeatParser.java:28-34 | builds a fresh `SeatInfo` exactly when `Parse` gives a record, holding that record's values |
| SeatParser.ExtractAcceptsEveryMatch | src/test/SeatParser.java:44-46 | the `null` check never refuses the groups of a match |
| SeatParser.ParseSucceedsIffMatch | src/test/SeatParser.java:28-33 | a label is parsed exactly when the pattern matches it somewhere (both directions) |
| SeatParser.MatchIsNotBlank | src/test/SeatParser.java:30 | a label that holds a match is not blank, so the blank filter never hides a match |
| SeatParser.ParseUsesLeftmostMatch | src/test/SeatParser.java:31-33 | the record is extracted from a match whose start is no later than that of any match |
| SeatParser.ExtractedRecordShape | src/test/SeatParser.java:37-48 | the record from any match: the given `id`, `row == "Ряд"`, `seat == "Место"`, values on one line, a sector name that is empty or starts with a capital letter or digit and holds no table letter |
| SeatParser.ParsedRecordShape | src/test/SeatParser.java:28-48 | every parsed record has the shape above |
| SeatParser.FoldKeepsOneLine | src/test/SeatParser.java:38 | folding introduces no line terminator |
| SeatExamples.LabelChar | src/test/SeatParser.java:22 | in "A1 Ряд 5 Место 12" there is no line terminator, the markers' first letters occur only at the markers, and the only spaces are the four between the words |
| SeatExamples.LabelMatchMatches | src/test/SeatParser.java:22 | the second alternative with sector "A1", row name "5" and seat name "12" is a match of the example label |
| SeatExamples.MarkersOfLabel | src/test/SeatParser.java:22 | the example label holds each marker word at one position only |
| SeatExamples.LabelPrefixUnnamed | src/test/SeatParser.java:22 | no match of the example label starting at 0 takes the first alternative |
| SeatExamples.LabelMatchUnique | src/test/SeatParser.java:22 | a match of the example label starting at 0 whose seat name reaches the line end is that one match |
| SeatExamples.FindLabel | src/test/SeatParser.java:32 | `find()` on the example label returns that match |
| SeatExamples.ParseLabelFromMatch | src/test/SeatParser.java:28-33 | the example label is not blank, so its record is extracted from that match |
| SeatExamples.GroupsOfLabel | src/test/SeatParser.java:37-42 | the groups of that match: no `sector` or `sectorName`, `sectorWithoutName` "A1", the markers, `rowName` "5", `seatName` "12" |
| SeatExamples.ParseExample | src/test/SeatParser.java:28-48 | parsing "A1 Ряд 5 Место 12" with id 7 gives sector "A1", sector name "", row "Ряд" "5", seat "Место" "12" |
| SeatParser.ParsedFullStrings | src/test/SeatParser.java:39-48 | a parsed record's full row is "Ряд " + row name, and its full seat is "Место " + seat name |

## Left out

- The regex engine itself is not modelled. `SeatPattern.Find` is a scanner written for this one pattern. Its order of trying extents follows the engine's backtracking order: leftmost start, first alternative first, lazy groups shortest first, greedy groups longest first. That order is argued from the pattern's structure, not proved against `java.util.regex`. What is proved is soundness and completeness against the grammar, plus the order stated in `MatchAtPriority`.
- `CharClasses.IsUpper`: `\p{Lu}` is narrowed to three ranges: A–Z, U+00C0–U+00DE except U+00D7, and U+0400–U+042F. Every other capital is left out. That includes the rest of the Cyrillic block (for example Ѣ U+0462, Ґ U+0490, Ә U+04D8), Latin Extended (for example Ā U+0100, Ł U+0141), Greek and all other scripts. When the real sector name starts with such a capital, the model's sector name starts instead at a later capital or digit it recognises, or, if there is none before the row marker, the label falls to the second alternative. For example, in "A Ґ Ряд 1 Место 2" Java gives sector "A" and sector name "Ґ"; the model gives sector "A Ґ" and an empty sector name. In "A Ґ Б Ряд 1 Место 2" Java gives sector "A" and sector name "Ґ Б"; the model gives sector "A Ґ" and sector name "Б".
- `CharClasses.CharEqualsIgnoreCase`: case is folded only for A–Z/a–z and the Cyrillic letters U+0400–U+045F. Java's `Character.toUpperCase` also maps other characters onto these letters, for example the historic Cyrillic forms U+1C82 (to О), U+1C83 (to С) and U+1C84 and U+1C85 (to Т). A sector spelled with one of them equals "сектор" ignoring case in Java, but not in the model.
- Java strings are sequences of UTF-16 code units; a Dafny `string` is a sequence of Unicode scalar values. A character outside the Basic Multilingual Plane is one `char` here and two code units in Java. An unpaired surrogate, which a Java string may hold, has no counterpart in the model.
- The label's `long id` is a bounded integer that is copied through unchanged. No arithmetic is done on it.
- Strings are values. Java's reference identity (the original `String` object returned when nothing was replaced) appears only as equality with the input.
- Lombok's generated getters, `equals` and `hashCode`, and the `@UtilityClass` annotation are not modelled: fields are read directly, and datatypes have structural equality.
- The static initializer and the comments about performance are not modelled: they have no behavioural content.
