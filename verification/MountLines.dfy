/** The kernel's side of mountinfo: what a line is made of, and what reading one gives back. */
module MountLines {
  import opened Basics
  import opened ByteStrings
  import opened Mounts

  // ------------------------------------------------------------ words

  ghost predicate Spaceless(text: Text) {
    forall byte :: byte in text ==> !IsSpace(byte)
  }

  ghost predicate IsWord(text: Text) {
    text != [] && Spaceless(text)
  }

  lemma {:induction false} FieldsRun(word: Text, rest: Text, pending: Text)
    requires Spaceless(word)
    ensures Fields(word + rest, pending) == Fields(rest, pending + word)
    decreases |word|
  {
    if word == [] {
      assert word + rest == rest && pending + word == pending;
    } else {
      var text := word + rest;
      assert text[0] == word[0] && word[0] in word && text[1..] == word[1..] + rest;
      FieldsRun(word[1..], rest, pending + [word[0]]);
      assert pending + [word[0]] + word[1..] == pending + word;
    }
  }

  /** Words joined by single spaces are found again. */
  lemma {:induction false} FieldsJoin(words: seq<Text>)
    requires words != [] && forall word :: word in words ==> IsWord(word)
    ensures Fields(Join(words, SPACE), []) == words
  {
    var first, rest := words[0], if |words| == 1 then [] else [SPACE] + Join(words[1..], SPACE);
    assert Join(words, SPACE) == first + rest && words == [first] + words[1..];
    assert IsWord(first);
    FieldsRun(first, rest, []);
    assert [] + first == first;
    if |words| > 1 {
      FieldsJoin(words[1..]);
      assert rest[0] == SPACE && rest[1..] == Join(words[1..], SPACE);
    }
  }

  // ------------------------------------------------------------ the separator

  ghost predicate DashAt(line: Text, at: nat) {
    at + 3 <= |line| && line[at..at + 3] == Ascii(" - ")
  }

  /** The first place where " - " stands. */
  ghost predicate SeparatedAt(line: Text, at: nat) {
    DashAt(line, at) && forall k: nat :: k < at ==> !DashAt(line, k)
  }

  lemma DashIsAscii()
    ensures Ascii(" - ") == [SPACE, DASH, SPACE] && Ascii("-") == [DASH]
  {
  }

  lemma {:induction false} SeparatorIsFirst(line: Text, from: nat, at: nat)
    requires from <= |line| && forall k: nat :: k < from ==> !DashAt(line, k)
    ensures Separator(line, from) == Some(at) <==> SeparatedAt(line, at)
    decreases |line| - from
  {
    DashIsAscii();
    hide Ascii;
    if from + 3 <= |line| && !DashAt(line, from) {
      SeparatorIsFirst(line, from + 1, at);
    }
  }

  lemma EarlyDashIsAWord(words: seq<Text>, after: Text, k: nat)
    requires words != [] && forall word :: word in words ==> IsWord(word)
    requires k < |Join(words, SPACE)| && DashAt(Join(words, SPACE) + [SPACE, DASH, SPACE] + after, k)
    ensures [DASH] in words
  {
    DashIsAscii();
    hide Ascii;
    var before := Join(words, SPACE);
    var line := before + [SPACE, DASH, SPACE] + after;
    assert line[k..k + 3] == [line[k], line[k + 1], line[k + 2]];
    assert line[|before| + 1] == DASH;
    SplitJoin(words, SPACE);
    SplitWhole([DASH], SPACE);
    hide Split, Join;
    if k + 2 == |before| {
      assert before == before[..k] + [SPACE] + [DASH];
      SplitConcat(before[..k], [DASH], SPACE);
    } else {
      var inner := [DASH] + [SPACE] + before[k + 3..];
      assert before == before[..k] + [SPACE] + inner;
      SplitConcat(before[..k], inner, SPACE);
      SplitConcat([DASH], before[k + 3..], SPACE);
    }
  }

  lemma SeparatorFound(words: seq<Text>, after: Text)
    requires words != [] && forall word :: word in words ==> IsWord(word) && word != [DASH]
    ensures Separator(Join(words, SPACE) + [SPACE, DASH, SPACE] + after, 0) == Some(|Join(words, SPACE)|)
  {
    var at := |Join(words, SPACE)|;
    var line := Join(words, SPACE) + [SPACE, DASH, SPACE] + after;
    DashIsAscii();
    hide Ascii;
    forall k: nat | k < at ensures !DashAt(line, k) {
      if DashAt(line, k) {
        EarlyDashIsAWord(words, after, k);
        assert false;
      }
    }
    assert line[at..at + 3] == [SPACE, DASH, SPACE];
    SeparatorIsFirst(line, 0, at);
  }

  // ------------------------------------------------------------ paths by their names

  ghost predicate IsCanonical(text: Text) {
    text != [] && text[0] == '/' as int && Ascii("..") !in Split(text, '/' as int)
  }

  /** What stands between slashes, empty and dot pieces left out. */
  ghost function NamesIn(text: Text): seq<Text> {
    Meaningful(Split(text, '/' as int))
  }

  lemma {:induction false} PiecesAreNames(pieces: seq<Text>)
    requires [DOT, DOT] !in pieces
    ensures [RootDir] + Pieces(pieces) == Absolute(Meaningful(pieces))
  {
    if pieces != [] {
      PiecesAreNames(pieces[1..]);
      var first := if IsEmptyOrDot(pieces[0]) then [] else [Normal(pieces[0])];
      var names := Meaningful(pieces[1..]);
      assert Pieces(pieces) == first + Pieces(pieces[1..]);
      assert Pieces(pieces[1..]) == Absolute(names)[1..];
      if first != [] {
        assert Absolute([pieces[0]] + names) == [RootDir] + (first + Absolute(names)[1..]);
      }
    }
  }

  /** A canonical path is the root and its names. */
  lemma PathIsItsNames(text: Text)
    ensures CanonicalAbsolute(PathOf(text)) <==> IsCanonical(text)
    ensures IsCanonical(text) ==> PathOf(text) == Absolute(NamesIn(text))
  {
    assert Ascii("..") == [DOT, DOT];
    CanonicalMeans(text);
    if IsCanonical(text) {
      PiecesAreNames(Split(text, SLASH));
    }
  }

  // ------------------------------------------------------------ what the kernel writes for one mount

  datatype Entry = Entry(id: nat, parent: nat, device: Text, root: Text, point: Text, options: seq<Text>,
                         tags: seq<Text>, kind: Text, source: Text, superOptions: seq<Text>)

  ghost function Before(entry: Entry): seq<Text>
    requires entry.options != []
  {
    [Decimal(entry.id), Decimal(entry.parent), entry.device, Escaped(entry.root), Escaped(entry.point),
     Join(entry.options, ',' as int)] + entry.tags
  }

  ghost function Behind(entry: Entry): seq<Text>
    requires entry.superOptions != []
  {
    [entry.kind, entry.source, Join(entry.superOptions, ',' as int)]
  }

  /** The fields are words, none before the separator is a lone dash, and no option holds a comma. */
  ghost predicate WellWritten(entry: Entry) {
    && entry.options != [] && entry.superOptions != []
    && (forall word :: word in Before(entry) ==> IsWord(word) && word != Ascii("-"))
    && (forall word :: word in Behind(entry) ==> IsWord(word))
    && (forall option :: option in entry.options || option in entry.superOptions ==> ',' as int !in option)
  }

  ghost function Rendered(entry: Entry): Text
    requires entry.options != [] && entry.superOptions != []
  {
    Join(Before(entry), ' ' as int) + Ascii(" - ") + Join(Behind(entry), ' ' as int)
  }

  ghost function PointOf(entry: Entry): Path {
    Absolute(NamesIn(entry.point))
  }

  ghost function MountOf(entry: Entry): Mount {
    Mount(PointOf(entry), set option | option in entry.options, set option | option in entry.superOptions)
  }

  lemma EscapeIsSpaceless(byte: nat)
    ensures Spaceless(EscapeOf(byte)) <==> byte != 12 && byte != 13
  {
    if byte == 12 || byte == 13 {
      assert byte in EscapeOf(byte);
    }
  }

  /** The kernel escapes everything that separates fields except form feed and carriage return. */
  lemma {:induction false} EscapedIsSpaceless(text: Text)
    ensures Spaceless(Escaped(text)) <==> 12 !in text && 13 !in text
  {
    if text != [] {
      EscapedIsSpaceless(text[1..]);
      EscapeIsSpaceless(text[0]);
      hide EscapeOf, IsSpace;
      var escape, rest := EscapeOf(text[0]), Escaped(text[1..]);
      assert Spaceless(escape + rest) <==> Spaceless(escape) && Spaceless(rest) by {
        assert forall byte :: byte in escape + rest <==> byte in escape || byte in rest;
      }
    }
  }

  lemma OptionsAreRead(options: seq<Text>)
    requires options != [] && forall option :: option in options ==> COMMA !in option
    ensures OptionSet(Join(options, COMMA)) == set option | option in options
  {
    SplitJoin(options, COMMA);
  }

  lemma ColumnsAreFound(entry: Entry)
    requires WellWritten(entry)
    ensures Separator(Rendered(entry), 0) == Some(|Join(Before(entry), SPACE)|)
    ensures |Join(Before(entry), SPACE)| + 3 <= |Rendered(entry)|
    ensures Fields(Rendered(entry)[..|Join(Before(entry), SPACE)|], []) == Before(entry)
    ensures Fields(Rendered(entry)[|Join(Before(entry), SPACE)| + 3..], []) == Behind(entry)
  {
    DashIsAscii();
    hide Ascii;
    var before, behind := Before(entry), Behind(entry);
    var head, tail := Join(before, SPACE), Join(behind, SPACE);
    var line := head + [SPACE, DASH, SPACE] + tail;
    assert Rendered(entry) == line;
    SeparatorFound(before, tail);
    FieldsJoin(before);
    FieldsJoin(behind);
    assert line[..|head|] == head && line[|head| + 3..] == tail;
  }

  /** A line the kernel writes is read as its id, its mount point and its two sets of options; it is refused exactly
      for an id outside 1..2^64-1 or a mount point that is not canonical. */
  lemma RenderedIsRead(entry: Entry)
    requires WellWritten(entry)
    ensures ParseLine(Rendered(entry)) ==
            if 0 < entry.id <= 0xFFFF_FFFF_FFFF_FFFF && IsCanonical(entry.point)
            then Some(Line(entry.id, MountOf(entry))) else None
  {
    ColumnsAreFound(entry);
    DecimalIdIsRead(entry.id);
    EscapedDecodes(entry.point);
    PathIsItsNames(entry.point);
    OptionsAreRead(entry.options);
    OptionsAreRead(entry.superOptions);
    hide Separator, Fields, ParseU64, Decimal, Decoded, OptionSet, PathOf, CanonicalAbsolute, WellWritten, Rendered, Join,
      IsCanonical, NamesIn, Absolute;
  }

  // ------------------------------------------------------------ every line, whoever wrote it

  ghost predicate IsWhite(byte: nat) {
    byte in {9, 10, 12, 13, 32}
  }

  /** Every white byte made a space, and what then stands between spaces. */
  ghost function Blanked(text: Text): Text {
    seq(|text|, i requires 0 <= i < |text| => if IsWhite(text[i]) then 32 else text[i])
  }

  ghost function NonEmpty(pieces: seq<Text>): seq<Text> {
    if pieces == [] then [] else (if pieces[0] == [] then [] else [pieces[0]]) + NonEmpty(pieces[1..])
  }

  ghost function Words(text: Text): seq<Text> {
    NonEmpty(Split(Blanked(text), 32))
  }

  lemma BlankedFirst(text: Text)
    requires text != []
    ensures Blanked(text) == [if IsSpace(text[0]) then SPACE else text[0]] + Blanked(text[1..])
  {
  }

  lemma NonEmptyFirst(piece: Text, pieces: seq<Text>)
    ensures NonEmpty([piece] + pieces) == (if piece == [] then [] else [piece]) + NonEmpty(pieces)
  {
    assert ([piece] + pieces)[1..] == pieces;
  }

  lemma WordAlone(word: Text)
    requires Spaceless(word)
    ensures Split(word, SPACE) == [word]
  {
    SplitWhole(word, SPACE);
  }

  lemma LongerWord(word: Text, byte: nat)
    requires Spaceless(word) && !IsSpace(byte)
    ensures Spaceless(word + [byte])
  {
  }

  lemma {:induction false} FieldsAreWords(text: Text, pending: Text)
    requires Spaceless(pending)
    ensures Fields(text, pending) == NonEmpty(Split(pending + Blanked(text), SPACE))
    decreases |text|
  {
    WordAlone(pending);
    if text == [] {
      assert pending + Blanked(text) == pending;
      NonEmptyFirst(pending, []);
      assert [pending] + [] == [pending];
    } else {
      BlankedFirst(text);
      var rest := Blanked(text[1..]);
      if IsSpace(text[0]) {
        FieldsAreWords(text[1..], []);
        hide Split, NonEmpty, Blanked, Spaceless, IsSpace;
        assert [] + rest == rest;
        assert pending + Blanked(text) == pending + [SPACE] + rest;
        SplitConcat(pending, rest, SPACE);
        NonEmptyFirst(pending, Split(rest, SPACE));
      } else {
        hide Split, NonEmpty, Blanked, Spaceless, IsSpace;
        LongerWord(pending, text[0]);
        FieldsAreWords(text[1..], pending + [text[0]]);
        assert pending + Blanked(text) == pending + [text[0]] + rest;
      }
    }
  }

  ghost predicate IsNumeral(text: Text) {
    text != [] && forall digit :: digit in text ==> '0' as int <= digit <= '9' as int
  }

  lemma {:induction false} DigitsMean(text: Text)
    ensures Digits(text, 0) == if forall d :: d in text ==> 48 <= d <= 57 then Some(ReadDecimal(text)) else None
  {
    if text != [] {
      var head, last := text[..|text| - 1], text[|text| - 1];
      DigitsMean(head);
      assert text == head + [last] && last in text;
      assert forall d :: d in text <==> d in head || d == last;
      if 48 <= last <= 57 {
        DigitsAppend(head, last, 0);
      } else {
        BadDigit(text, 0);
      }
    }
  }

  lemma {:induction false} BadDigit(text: Text, value: nat)
    requires exists d :: d in text && !(48 <= d <= 57)
    ensures Digits(text, value).None?
    decreases |text|
  {
    if 48 <= text[0] <= 57 {
      assert text == [text[0]] + text[1..];
      BadDigit(text[1..], 10 * value + (text[0] - ZERO));
    }
  }

  /** The numerals of the 64-bit range, a plus sign in front allowed. */
  ghost predicate IsId(text: Text, id: nat) {
    && (IsNumeral(text) || (text != [] && text[0] == '+' as int && IsNumeral(text[1..])))
    && ReadDecimal(if text[0] == '+' as int then text[1..] else text) == id <= 0xFFFF_FFFF_FFFF_FFFF
  }

  lemma IdsAreNumerals(text: Text, id: nat)
    ensures ParseU64(text) == Some(id) <==> IsId(text, id)
  {
    if text != [] {
      assert text[0] in text;
      DigitsMean(if text[0] == PLUS then text[1..] else text);
    }
  }

  /** What a line says: the first " - " parts it; before it stand an id first, an escaped mount point fifth and
      options sixth, behind it the file system's options third. */
  ghost predicate Says(line: Text, at: nat, point: Text, said: Line) {
    && SeparatedAt(line, at)
    && var before, behind := Words(line[..at]), Words(line[at + 3..]);
    && |before| >= 6 && |behind| >= 3
    && IsId(before[0], said.id) && said.id != 0
    && before[4] == Escaped(point) && IsCanonical(point)
    && said.mount.point == Absolute(NamesIn(point))
    && (forall option :: option in said.mount.options <==> option in Split(before[5], ',' as int))
    && (forall option :: option in said.mount.superOptions <==> option in Split(behind[2], ',' as int))
  }

  lemma {:induction false} FieldsAreSpaceless(text: Text, pending: Text)
    requires Spaceless(pending)
    ensures forall field :: field in Fields(text, pending) ==> Spaceless(field)
    decreases |text|
  {
    if text != [] {
      FieldsAreSpaceless(text[1..], if IsSpace(text[0]) then [] else pending + [text[0]]);
    }
  }

  lemma PointIsEscaped(field: Text, point: Text)
    requires Spaceless(field)
    ensures Decoded(field) == Some(point) <==> field == Escaped(point)
  {
    assert Unspaced(field);
    DecodingInvertsEscaping(field, point);
  }

  lemma WordsAreFields(line: Text, at: nat)
    requires SeparatedAt(line, at)
    ensures at + 3 <= |line| && Separator(line, 0) == Some(at)
    ensures Words(line[..at]) == Fields(line[..at], []) && Words(line[at + 3..]) == Fields(line[at + 3..], [])
    ensures forall field :: field in Fields(line[..at], []) ==> Spaceless(field)
  {
    SeparatorIsFirst(line, 0, at);
    FieldsAreWords(line[..at], []);
    FieldsAreWords(line[at + 3..], []);
    assert [] + Blanked(line[..at]) == Blanked(line[..at]) && [] + Blanked(line[at + 3..]) == Blanked(line[at + 3..]);
    FieldsAreSpaceless(line[..at], []);
  }

  lemma ReadIsSaid(line: Text, at: nat, said: Line)
    requires SeparatedAt(line, at) && ParseLine(line) == Some(said)
    ensures exists point :: Says(line, at, point, said)
  {
    WordsAreFields(line, at);
    var before := Fields(line[..at], []);
    hide Separator, SeparatedAt, Fields, ParseU64, PathOf, CanonicalAbsolute, Decoded, Split, Words, Escaped, IsId,
      IsCanonical, NamesIn, Absolute;
    var point := Decoded(before[4]).value;
    assert before[4] in before;
    IdsAreNumerals(before[0], said.id);
    PointIsEscaped(before[4], point);
    PathIsItsNames(point);
    assert Says(line, at, point, said);
  }

  lemma SaidIsRead(line: Text, at: nat, point: Text, said: Line)
    requires Says(line, at, point, said)
    ensures ParseLine(line) == Some(said)
  {
    WordsAreFields(line, at);
    var before, behind := Fields(line[..at], []), Fields(line[at + 3..], []);
    hide Separator, SeparatedAt, Fields, ParseU64, PathOf, CanonicalAbsolute, Decoded, Split, Words, Escaped, IsId,
      IsCanonical, NamesIn, Absolute;
    assert before[4] in before;
    IdsAreNumerals(before[0], said.id);
    PointIsEscaped(before[4], point);
    PathIsItsNames(point);
    assert said.mount.options == OptionSet(before[5]) && said.mount.superOptions == OptionSet(behind[2]);
  }

  /** A line is read as it says, and a line that says nothing is refused. */
  lemma LineIsRead(line: Text, said: Line)
    ensures ParseLine(line) == Some(said) <==> exists at: nat, point :: Says(line, at, point, said)
  {
    if ParseLine(line) == Some(said) {
      var at := Separator(line, 0).value;
      SeparatorIsFirst(line, 0, at);
      ReadIsSaid(line, at, said);
    }
    forall at: nat, point | Says(line, at, point, said) ensures ParseLine(line) == Some(said) {
      SaidIsRead(line, at, point, said);
    }
  }

  // ------------------------------------------------------------ when a mount point is read back

  /** Well written but for what its mount point may hold. */
  ghost predicate OtherwiseWellWritten(entry: Entry) {
    && entry.options != [] && entry.superOptions != []
    && (forall i :: 0 <= i < |Before(entry)| && i != 4 ==> IsWord(Before(entry)[i]) && Before(entry)[i] != Ascii("-"))
    && (forall word :: word in Behind(entry) ==> IsWord(word))
    && (forall option :: option in entry.options || option in entry.superOptions ==> ',' as int !in option)
  }

  lemma PlainPointIsWellWritten(entry: Entry)
    requires OtherwiseWellWritten(entry) && IsCanonical(entry.point) && 12 !in entry.point && 13 !in entry.point
    ensures WellWritten(entry)
  {
    DashIsAscii();
    hide Ascii;
    EscapedIsSpaceless(entry.point);
    assert Escaped(entry.point)[0] == SLASH;
    forall word | word in Before(entry) ensures IsWord(word) && word != [DASH] {
      var i :| 0 <= i < |Before(entry)| && Before(entry)[i] == word;
    }
  }

  lemma {:induction false} JoinHolds(words: seq<Text>, separator: nat, byte: nat)
    requires words != [] && byte in Join(words, separator) && byte != separator
    ensures exists word :: word in words && byte in word
  {
    if byte !in words[0] {
      JoinHolds(words[1..], separator, byte);
    }
  }

  /** A byte that cannot be lost between slashes stands in one of the names. */
  lemma NamesHold(text: Text, byte: nat)
    requires byte != SLASH && byte != DOT
    ensures byte in text <==> exists name :: name in NamesIn(text) && byte in name
  {
    var pieces := Split(text, SLASH);
    JoinSplit(text, SLASH);
    hide Split;
    if byte in text {
      JoinHolds(pieces, SLASH, byte);
    } else {
      forall piece | piece in pieces ensures byte !in piece {
        PieceIsPart(pieces, SLASH, piece, byte);
      }
    }
  }

  lemma {:induction false} PieceIsPart(pieces: seq<Text>, separator: nat, piece: Text, byte: nat)
    requires pieces != [] && piece in pieces
    ensures byte in piece ==> byte in Join(pieces, separator)
  {
    if piece != pieces[0] {
      PieceIsPart(pieces[1..], separator, piece, byte);
    }
  }

  /** Form feed and carriage return are white space to the reader but are not escaped by the kernel: a canonical mount
      point is read back exactly when it holds neither. */
  lemma PointSurvivesIff(entry: Entry)
    requires OtherwiseWellWritten(entry) && IsCanonical(entry.point) && 0 < entry.id <= 0xFFFF_FFFF_FFFF_FFFF
    ensures ParseLine(Rendered(entry)) == Some(Line(entry.id, MountOf(entry))) <==> 12 !in entry.point && 13 !in entry.point
  {
    if 12 !in entry.point && 13 !in entry.point {
      PlainPointIsWellWritten(entry);
      RenderedIsRead(entry);
    } else if ParseLine(Rendered(entry)).Some? {
      var byte := if 12 in entry.point then 12 else 13;
      NamesHold(entry.point, byte);
      ReadPointLacks(Rendered(entry), byte);
      hide ParseLine, Rendered, IsCanonical, NamesIn, OtherwiseWellWritten;
      var name :| name in NamesIn(entry.point) && byte in name;
      AbsoluteLists(NamesIn(entry.point), name);
    }
  }

  lemma ReadPointLacks(line: Text, byte: nat)
    requires ParseLine(line).Some? && (byte == 12 || byte == 13)
    ensures forall name :: Normal(name) in ParseLine(line).value.mount.point ==> byte !in name
  {
    var said := ParseLine(line).value;
    LineIsRead(line, said);
    var at: nat, point :| Says(line, at, point, said);
    WordsAreFields(line, at);
    hide ParseLine, SeparatedAt, Separator, Fields, Words, IsId, IsCanonical, NamesIn, Split, Escaped, Absolute;
    var before := Words(line[..at]);
    assert before[4] in before;
    EscapedIsSpaceless(point);
    hide Says;
    NamesHold(point, byte);
    forall name | Normal(name) in said.mount.point ensures byte !in name {
      AbsoluteLists(NamesIn(point), name);
    }
  }

  lemma AbsoluteLists(names: seq<Text>, name: Text)
    ensures Normal(name) in Absolute(names) <==> name in names
  {
    if Normal(name) in Absolute(names) {
      var i :| 0 <= i < |Absolute(names)| && Absolute(names)[i] == Normal(name);
      assert names[i - 1] == name;
    }
    if name in names {
      var i :| 0 <= i < |names| && names[i] == name;
      assert Absolute(names)[i + 1] == Normal(name);
    }
  }

  // ------------------------------------------------------------ the whole table

  ghost predicate AllWellWritten(entries: seq<Entry>) {
    forall i :: 0 <= i < |entries| ==> WellWritten(entries[i])
  }

  ghost function Lined(entries: seq<Entry>): seq<Text>
    requires AllWellWritten(entries)
  {
    seq(|entries|, i requires 0 <= i < |entries| => Rendered(entries[i]))
  }

  ghost function Ended(lines: seq<Text>): Text {
    if lines == [] then [] else lines[0] + Ascii("\n") + Ended(lines[1..])
  }

  /** The lines the kernel writes, each ended by a newline. */
  ghost function Written(entries: seq<Entry>): Text
    requires AllWellWritten(entries)
  {
    Ended(Lined(entries))
  }

  lemma {:induction false} JoinLacks(words: seq<Text>, separator: nat, byte: nat)
    requires words != [] && byte != separator && forall word :: word in words ==> byte !in word
    ensures byte !in Join(words, separator)
  {
    assert words[0] in words;
    if |words| > 1 {
      JoinLacks(words[1..], separator, byte);
    }
  }

  lemma RenderedLacks(entry: Entry, byte: nat)
    requires WellWritten(entry) && byte != SPACE && IsSpace(byte)
    ensures byte !in Rendered(entry)
  {
    DashIsAscii();
    hide Ascii;
    JoinLacks(Before(entry), SPACE, byte);
    JoinLacks(Behind(entry), SPACE, byte);
  }

  lemma NewlineIsAscii()
    ensures Ascii("\n") == [LF]
  {
  }

  lemma {:induction false} EndedSplits(lines: seq<Text>, last: Text)
    requires LF !in last && forall line :: line in lines ==> LF !in line
    ensures Split(Ended(lines) + last, LF) == lines + [last]
  {
    hide Split;
    if lines == [] {
      assert Ended(lines) + last == last;
      SplitWhole(last, LF);
    } else {
      NewlineIsAscii();
      hide Ascii;
      EndedSplits(lines[1..], last);
      var rest := Ended(lines[1..]) + last;
      assert Ended(lines) + last == lines[0] + [LF] + rest;
      SplitConcat(lines[0], rest, LF);
      SplitWhole(lines[0], LF);
      assert [lines[0]] + (lines[1..] + [last]) == lines + [last];
    }
  }

  /** The lines of a text are those ended by a newline and what follows the last of them, if anything does. */
  lemma LinesAre(lines: seq<Text>, last: Text)
    requires LF !in last && forall line :: line in lines ==> LF !in line
    ensures Lines(Ended(lines) + last) == if last == [] then lines else lines + [last]
  {
    EndedSplits(lines, last);
    hide Split, Ended;
    assert (lines + [last])[..|lines|] == lines;
  }

  lemma {:induction false} EndedLacks(lines: seq<Text>, byte: nat)
    requires byte != LF && forall line :: line in lines ==> byte !in line
    ensures byte !in Ended(lines)
  {
    if lines != [] {
      NewlineIsAscii();
      hide Ascii;
      EndedLacks(lines[1..], byte);
    }
  }

  lemma WrittenLines(entries: seq<Entry>)
    requires AllWellWritten(entries)
    ensures Lines(Written(entries)) == Lined(entries)
    ensures RETURN !in Written(entries)
  {
    var lines := Lined(entries);
    forall i | 0 <= i < |entries| ensures LF !in lines[i] && RETURN !in lines[i] {
      RenderedLacks(entries[i], LF);
      RenderedLacks(entries[i], RETURN);
    }
    hide Lines, Ended, Rendered, WellWritten;
    LinesAre(lines, []);
    EndedLacks(lines, RETURN);
    assert Ended(lines) + [] == Ended(lines);
  }

  /** The entries a table may list: ids of the 64-bit range, canonical mount points, none of either twice. */
  ghost predicate IsTable(entries: seq<Entry>) {
    && entries != []
    && (forall i :: 0 <= i < |entries| ==> 0 < entries[i].id <= 0xFFFF_FFFF_FFFF_FFFF && IsCanonical(entries[i].point))
    && (forall i, j :: 0 <= i < j < |entries| ==>
          entries[i].id != entries[j].id && NamesIn(entries[i].point) != NamesIn(entries[j].point))
  }

  ghost function Mounted(entries: seq<Entry>): seq<Mount> {
    seq(|entries|, i requires 0 <= i < |entries| => MountOf(entries[i]))
  }

  lemma AbsoluteTellsNames(a: seq<Text>, b: seq<Text>)
    ensures Absolute(a) == Absolute(b) <==> a == b
  {
    if Absolute(a) == Absolute(b) {
      assert |a| == |b|;
      assert forall i :: 0 <= i < |a| ==> Absolute(a)[i + 1] == Normal(a[i]) && Absolute(b)[i + 1] == Normal(b[i]);
    }
  }

  ghost predicate IsReadable(entry: Entry) {
    0 < entry.id <= 0xFFFF_FFFF_FFFF_FFFF && IsCanonical(entry.point)
  }

  /** Every line is read as its entry, or refused with it. */
  ghost predicate Reads(lines: seq<Text>, entries: seq<Entry>) {
    && |lines| == |entries|
    && forall i :: 0 <= i < |lines| ==>
         ParseLine(lines[i]) == if IsReadable(entries[i]) then Some(Line(entries[i].id, MountOf(entries[i]))) else None
  }

  lemma TableIsReadable(lines: seq<Text>, entries: seq<Entry>)
    requires Reads(lines, entries) && IsTable(entries)
    ensures Readable(lines)
  {
    hide ParseLine, IsCanonical, NamesIn, Absolute;
    forall i | 0 <= i < |lines| ensures ParseLine(lines[i]).Some? {
      assert IsReadable(entries[i]);
    }
    forall i, j | 0 <= i < j < |lines|
      ensures && ParseLine(lines[i]).value.id != ParseLine(lines[j]).value.id
              && ParseLine(lines[i]).value.mount.point != ParseLine(lines[j]).value.mount.point
    {
      AbsoluteTellsNames(NamesIn(entries[i].point), NamesIn(entries[j].point));
    }
  }

  lemma ReadableIsTable(lines: seq<Text>, entries: seq<Entry>)
    requires Reads(lines, entries) && Readable(lines)
    ensures IsTable(entries)
  {
    hide ParseLine, IsCanonical, NamesIn, Absolute;
    forall i | 0 <= i < |entries| ensures IsReadable(entries[i]) {
      assert ParseLine(lines[i]).Some?;
    }
    forall i, j | 0 <= i < j < |entries|
      ensures entries[i].id != entries[j].id && NamesIn(entries[i].point) != NamesIn(entries[j].point)
    {
      assert ParseLine(lines[i]).Some? && ParseLine(lines[j]).Some?;
    }
  }

  lemma WrittenIsParsed(entries: seq<Entry>)
    requires AllWellWritten(entries)
    ensures Reads(Lines(Written(entries)), entries)
  {
    WrittenLines(entries);
    forall i | 0 <= i < |entries|
      ensures ParseLine(Rendered(entries[i])) ==
              if IsReadable(entries[i]) then Some(Line(entries[i].id, MountOf(entries[i]))) else None
    {
      RenderedIsRead(entries[i]);
    }
    hide ParseLine, Rendered, WellWritten, IsCanonical, MountOf, Lines, Written;
  }

  /** The text the kernel writes for a list of mounts is readable exactly when the list is a table, and lists them. */
  lemma WrittenIsRead(entries: seq<Entry>)
    requires AllWellWritten(entries)
    ensures Readable(Lines(Written(entries))) <==> IsTable(entries)
    ensures IsTable(entries) ==> Table(Written(entries)) == Mounted(entries)
  {
    WrittenIsParsed(entries);
    var lines := Lines(Written(entries));
    hide ParseLine, IsCanonical, NamesIn, Absolute, Lines, Written, AllWellWritten, Readable, MountOf;
    if Readable(lines) {
      ReadableIsTable(lines, entries);
    }
    if IsTable(entries) {
      TableIsReadable(lines, entries);
      assert forall i :: 0 <= i < |entries| ==> IsReadable(entries[i]);
    }
  }

  // ------------------------------------------------------------ admitting what the kernel wrote

  ghost function At(text: string): Path {
    Absolute(NamesIn(Ascii(text)))
  }

  lemma NamesBetweenSlashes(names: seq<Text>)
    requires names != [] && forall name :: name in names ==> name != [] && name != [DOT] && SLASH !in name
    ensures NamesIn([SLASH] + Join(names, SLASH)) == names
  {
    var text := Join(names, SLASH);
    assert [SLASH] + text == [] + [SLASH] + text;
    SplitConcat([], text, SLASH);
    SplitWhole([], SLASH);
    SplitJoin(names, SLASH);
    MeaningfulFirst([], names);
    NothingDropped(names);
  }

  lemma RootIsNameless()
    ensures At("/") == [RootDir]
  {
    assert Ascii("/") == [] + [SLASH] + [];
    SplitConcat([], [], SLASH);
    SplitWhole([], SLASH);
    var nothing: Text := [];
    assert Split(Ascii("/"), SLASH) == [nothing] + [nothing] && [nothing] == [nothing] + [];
    MeaningfulFirst(nothing, [nothing]);
    MeaningfulFirst(nothing, []);
  }

  lemma OneName(text: string, name: string)
    requires text == "/" + name && name != "" && name != "." && '/' !in name
    ensures At(text) == Absolute([Ascii(name)])
  {
    assert Ascii(text) == [SLASH] + Ascii(name);
    assert Ascii(name)[0] == name[0] as int;
    assert Ascii(name) == [DOT] ==> name == ".";
    assert Join([Ascii(name)], SLASH) == Ascii(name);
    assert SLASH !in Ascii(name) by {
      forall i | 0 <= i < |name| ensures Ascii(name)[i] != SLASH {
        assert name[i] != '/';
      }
    }
    NamesBetweenSlashes([Ascii(name)]);
  }

  lemma TwoNames()
    ensures At("/var/tmp") == Absolute([Ascii("var"), Ascii("tmp")])
  {
    var names := [Ascii("var"), Ascii("tmp")];
    assert Join(names[1..], SLASH) == names[1];
    assert Join(names, SLASH) == names[0] + [SLASH] + names[1];
    assert Ascii("/var/tmp") == [SLASH] + (names[0] + [SLASH] + names[1]);
    NamesBetweenSlashes(names);
  }

  lemma RootsAreNamed()
    ensures PROTECTED == [At("/"), At("/usr"), At("/boot"), At("/etc"), At("/srv")]
    ensures PRIVATE_API_ROOTS == [At("/dev"), At("/proc"), At("/sys"), At("/tmp"), At("/var/tmp")]
  {
    hide At, Absolute, Ascii;
    RootIsNameless();
    TwoNames();
    OneName("/usr", "usr");
    OneName("/boot", "boot");
    OneName("/etc", "etc");
    OneName("/srv", "srv");
    OneName("/dev", "dev");
    OneName("/proc", "proc");
    OneName("/sys", "sys");
    OneName("/tmp", "tmp");
  }

  /** The entry whose mount point is the deepest above a path. */
  ghost predicate Deepest(entries: seq<Entry>, path: Path, i: int) {
    && 0 <= i < |entries| && PointOf(entries[i]) <= path
    && forall j :: 0 <= j < |entries| && j != i && PointOf(entries[j]) <= path ==>
         |PointOf(entries[j])| < |PointOf(entries[i])|
  }

  ghost predicate MayWrite(required: set<Path>, path: Path) {
    exists root :: root <= path &&
      (root in required || root in [At("/dev"), At("/proc"), At("/sys"), At("/tmp"), At("/var/tmp")])
  }

  ghost predicate Writable(entries: seq<Entry>, path: Path) {
    exists i :: Deepest(entries, path, i) && Ascii("rw") in entries[i].options && Ascii("rw") in entries[i].superOptions
  }

  ghost predicate Guarded(entries: seq<Entry>, path: Path) {
    exists i :: Deepest(entries, path, i) && Ascii("ro") in entries[i].options
  }

  lemma DeepestIsCovering(entries: seq<Entry>, path: Path, i: int)
    requires IsTable(entries) && 0 <= i < |entries|
    ensures Deepest(entries, path, i) <==> IsCovering(Mounted(entries), path, MountOf(entries[i]))
  {
    var mounts := Mounted(entries);
    assert mounts[i] in mounts;
    forall j | 0 <= j < |entries| && j != i ensures mounts[j] in mounts && mounts[j].point != mounts[i].point {
      AbsoluteTellsNames(NamesIn(entries[i].point), NamesIn(entries[j].point));
    }
    hide IsTable, NamesIn, Absolute;
    if Deepest(entries, path, i) {
      forall m | m in mounts && Covers(m, path) && m != mounts[i] ensures |m.point| < |mounts[i].point| {
        var j :| 0 <= j < |mounts| && mounts[j] == m;
        assert PointOf(entries[j]) == m.point;
      }
    }
    if IsCovering(mounts, path, mounts[i]) {
      forall j | 0 <= j < |entries| && j != i && PointOf(entries[j]) <= path
        ensures |PointOf(entries[j])| < |PointOf(entries[i])|
      {
        assert Covers(mounts[j], path);
      }
    }
  }

  lemma CoveringIsDeepest(entries: seq<Entry>, path: Path, m: Mount) returns (i: int)
    requires IsTable(entries) && IsCovering(Mounted(entries), path, m)
    ensures Deepest(entries, path, i) && m == MountOf(entries[i])
  {
    i :| 0 <= i < |entries| && Mounted(entries)[i] == m;
    DeepestIsCovering(entries, path, i);
  }

  lemma OptionsAreNamed()
    ensures RW == Ascii("rw") && RO == Ascii("ro")
  {
  }

  lemma WritableIs(entries: seq<Entry>, path: Path)
    requires IsTable(entries)
    ensures WritableAt(Mounted(entries), path) <==> Writable(entries, path)
    ensures ReadOnlyAt(Mounted(entries), path) <==> Guarded(entries, path)
  {
    OptionsAreNamed();
    hide Ascii, IsTable, IsCovering, Deepest, Mounted;
    if WritableAt(Mounted(entries), path) {
      var m :| IsCovering(Mounted(entries), path, m) && RW in m.options && RW in m.superOptions;
      var i := CoveringIsDeepest(entries, path, m);
    }
    if ReadOnlyAt(Mounted(entries), path) {
      var m :| IsCovering(Mounted(entries), path, m) && RO in m.options;
      var i := CoveringIsDeepest(entries, path, m);
    }
    forall i | Deepest(entries, path, i) ensures 0 <= i < |entries| && IsCovering(Mounted(entries), path, MountOf(entries[i])) {
      assert 0 <= i < |entries| by {
        DeepestIsListed(entries, path, i);
      }
      DeepestIsCovering(entries, path, i);
    }
  }

  lemma DeepestIsListed(entries: seq<Entry>, path: Path, i: int)
    requires Deepest(entries, path, i)
    ensures 0 <= i < |entries|
  {
  }

  lemma WriteRootsAre(required: set<Path>, path: Path)
    ensures InWriteRoot(required, path) <==> MayWrite(required, path)
  {
    RootsAreNamed();
    hide At, Absolute, Ascii;
  }

  ghost predicate WritesConfined(entries: seq<Entry>, required: set<Path>) {
    forall path, i :: path != [] && path[0] == RootDir && !MayWrite(required, path) && Deepest(entries, path, i) ==>
      Ascii("rw") !in entries[i].options
  }

  lemma ConfinedIs(entries: seq<Entry>, required: set<Path>)
    requires IsTable(entries)
    ensures Confined(Mounted(entries), required) <==> WritesConfined(entries, required)
  {
    OptionsAreNamed();
    hide Ascii, IsTable, IsCovering, Deepest, InWriteRoot, MayWrite, Mounted;
    if Confined(Mounted(entries), required) {
      forall path, i | IsAbsolute(path) && !MayWrite(required, path) && Deepest(entries, path, i)
        ensures 0 <= i < |entries| && RW !in entries[i].options
      {
        DeepestIsListed(entries, path, i);
        DeepestIsCovering(entries, path, i);
        WriteRootsAre(required, path);
      }
    }
    if WritesConfined(entries, required) {
      forall path, m | IsAbsolute(path) && !InWriteRoot(required, path) && IsCovering(Mounted(entries), path, m)
        ensures RW !in m.options
      {
        var i := CoveringIsDeepest(entries, path, m);
        WriteRootsAre(required, path);
      }
    }
  }

  ghost predicate AllWritable(entries: seq<Entry>, required: set<Path>) {
    forall path :: path in required ==> Writable(entries, path)
  }

  ghost predicate RootsGuarded(entries: seq<Entry>) {
    && Guarded(entries, At("/")) && Guarded(entries, At("/usr")) && Guarded(entries, At("/boot"))
    && Guarded(entries, At("/etc")) && Guarded(entries, At("/srv"))
  }

  lemma RequiredIs(entries: seq<Entry>, required: set<Path>)
    requires IsTable(entries)
    ensures (forall path :: path in required ==> WritableAt(Mounted(entries), path)) <==> AllWritable(entries, required)
  {
    forall path ensures WritableAt(Mounted(entries), path) <==> Writable(entries, path) {
      WritableIs(entries, path);
    }
    hide WritableAt, Writable, IsTable, Mounted;
  }

  lemma ProtectedIs(entries: seq<Entry>)
    requires IsTable(entries)
    ensures (forall path :: path in PROTECTED ==> ReadOnlyAt(Mounted(entries), path)) <==> RootsGuarded(entries)
  {
    RootsAreNamed();
    hide IsTable, Mounted, At, ReadOnlyAt, Guarded;
    forall k | 0 <= k < |PROTECTED| ensures ReadOnlyAt(Mounted(entries), PROTECTED[k]) <==> Guarded(entries, PROTECTED[k]) {
      WritableIs(entries, PROTECTED[k]);
    }
    assert forall k :: 0 <= k < |PROTECTED| ==> PROTECTED[k] in PROTECTED;
    assert PROTECTED[0] == At("/") && PROTECTED[1] == At("/usr") && PROTECTED[2] == At("/boot");
    assert PROTECTED[3] == At("/etc") && PROTECTED[4] == At("/srv");
  }

  /** The whole decision, on what the kernel wrote: a namespace is admitted exactly when its mounts make a table, every
      required root is under a writable mount of a writable file system, "/", "/usr", "/boot", "/etc" and "/srv" are
      under read-only ones, and no absolute path outside the required roots, "/dev", "/proc", "/sys", "/tmp" and
      "/var/tmp" is under a writable one. */
  lemma AdmissionIs(entries: seq<Entry>, isUtf8: Text -> bool, required: set<Path>)
    requires AllWellWritten(entries)
    ensures Admissible(Written(entries), isUtf8, required) <==>
            && isUtf8(Written(entries)) && 0 !in Written(entries) && IsTable(entries)
            && AllWritable(entries, required) && RootsGuarded(entries) && WritesConfined(entries, required)
  {
    WrittenIsRead(entries);
    WrittenLines(entries);
    hide Written, Readable, Table, WritableAt, ReadOnlyAt, Confined, WritesConfined, AllWritable, RootsGuarded, IsTable, Mounted,
      AllWellWritten, Lines;
    if IsTable(entries) {
      ConfinedIs(entries, required);
      RequiredIs(entries, required);
      ProtectedIs(entries);
    }
  }
}
