/** The live mount namespace: reading it, finding the mount that covers a path, and admitting it. */
module Mounts {
  import opened Basics
  import opened ByteStrings

  type Text = Bytes

  const TAB: nat := 9
  const FORM_FEED: nat := 12
  const RETURN: nat := 13
  const PLUS: nat := 43
  const COMMA: nat := 44
  const DASH: nat := 45

  // ------------------------------------------------------------ escaped fields

  /** The octal escape the kernel writes for a byte, if it writes one. */
  function EscapeOf(byte: nat): Text {
    if byte == SPACE then [BACKSLASH, 48, 52, 48]
    else if byte == TAB then [BACKSLASH, 48, 49, 49]
    else if byte == LF then [BACKSLASH, 48, 49, 50]
    else if byte == BACKSLASH then [BACKSLASH, 49, 51, 52]
    else [byte]
  }

  function Escaped(text: Text): Text {
    if text == [] then [] else EscapeOf(text[0]) + Escaped(text[1..])
  }

  /** The byte an escape stands for, read at a backslash. */
  function Unescape(field: Text): Option<nat> {
    if |field| < 4 then None
    else if field[1..4] == [48, 52, 48] then Some(SPACE)
    else if field[1..4] == [48, 49, 49] then Some(TAB)
    else if field[1..4] == [48, 49, 50] then Some(LF)
    else if field[1..4] == [49, 51, 52] then Some(BACKSLASH)
    else None
  }

  function Decoded(field: Text): Option<Text> {
    if field == [] then Some([])
    else if field[0] != BACKSLASH then
      WithByte(field[0], Decoded(field[1..]))
    else
      var byte := Unescape(field);
      if byte.None? then None
      else WithByte(byte.value, Decoded(field[4..]))
  }

  function WithByte(byte: nat, rest: Option<Text>): Option<Text> {
    if rest.None? then rest else Some([byte] + rest.value)
  }

  /** Nothing that separates fields occurs unescaped. */
  predicate Unspaced(field: Text) {
    SPACE !in field && TAB !in field && LF !in field
  }

  /** An escape is the byte's three octal digits after a backslash, for space, tab, newline and backslash alone. */
  lemma EscapesAreOctal(byte: nat)
    ensures EscapeOf(byte) ==
            if byte in {' ' as int, 9, 10, 92} then [92, 48 + byte / 64, 48 + byte / 8 % 8, 48 + byte % 8] else [byte]
  {
  }

  /** Every text survives escaping. */
  lemma {:induction false} EscapedDecodes(text: Text)
    ensures Decoded(Escaped(text)) == Some(text)
  {
    if text != [] {
      EscapedDecodes(text[1..]);
      var escape, rest := EscapeOf(text[0]), Escaped(text[1..]);
      var field := escape + rest;
      assert text == [text[0]] + text[1..];
      assert field[|escape|..] == rest;
      if |escape| == 4 {
        assert field[1..4] == escape[1..4];
      }
    }
  }

  /** Without raw separators nothing but escaped texts decodes. */
  lemma {:induction false} OnlyEscapedDecodes(field: Text)
    requires Unspaced(field) && Decoded(field).Some?
    ensures field == Escaped(Decoded(field).value)
    decreases |field|
  {
    if field != [] {
      var text := Decoded(field).value;
      assert field[0] in field;
      var width := if field[0] == BACKSLASH then 4 else 1;
      var rest := Decoded(field[width..]);
      OnlyEscapedDecodes(field[width..]);
      assert text[1..] == rest.value;
      assert field[..width] == EscapeOf(text[0]) by {
        FirstEscape(field, text[0]);
      }
      assert field == field[..width] + field[width..];
    }
  }

  lemma FirstEscape(field: Text, byte: nat)
    requires Unspaced(field) && field != []
    requires if field[0] == BACKSLASH then Unescape(field) == Some(byte) else field[0] == byte
    ensures field[..if field[0] == BACKSLASH then 4 else 1] == EscapeOf(byte)
  {
    if field[0] == BACKSLASH {
      assert field[..4] == [BACKSLASH] + field[1..4];
    } else {
      assert field[0] in field;
    }
  }

  /** On a field free of raw separators, decoding accepts exactly the escaped texts and gives each its original back. */
  lemma DecodingInvertsEscaping(field: Text, text: Text)
    requires Unspaced(field)
    ensures Decoded(field) == Some(text) <==> field == Escaped(text)
  {
    EscapedDecodes(text);
    if Decoded(field).Some? {
      OnlyEscapedDecodes(field);
    }
  }

  function After(out: Text, rest: Option<Text>): Option<Text> {
    if rest.None? then rest else Some(out + rest.value)
  }

  lemma AfterNothing(rest: Option<Text>, out: Text)
    ensures After([], rest) == rest
    ensures After(out, Some([])) == Some(out)
    ensures After(out, None) == None
  {
    assert out + [] == out;
    if rest.Some? {
      assert [] + rest.value == rest.value;
    }
  }

  lemma AfterByte(out: Text, byte: nat, rest: Option<Text>)
    ensures After(out, WithByte(byte, rest)) == After(out + [byte], rest)
  {
    if rest.Some? {
      assert out + ([byte] + rest.value) == out + [byte] + rest.value;
    }
  }

  /** The decoder's loop. */
  method DecodeMountField(field: Text) returns (decoded: Option<Text>)
    ensures decoded == Decoded(field)
  {
    hide WithByte, After;
    var out: Text := [];
    var index := 0;
    assert field[0..] == field;
    AfterNothing(Decoded(field), []);
    while index < |field|
      invariant 0 <= index <= |field|
      invariant Decoded(field) == After(out, Decoded(field[index..]))
    {
      var rest := field[index..];
      if field[index] != BACKSLASH {
        assert rest[1..] == field[index + 1..];
        AfterByte(out, field[index], Decoded(rest[1..]));
        out := out + [field[index]];
        index := index + 1;
      } else if index + 3 >= |field| {
        AfterNothing(None, out);
        return None;
      } else {
        var byte := Unescape(rest);
        if byte.None? {
          AfterNothing(None, out);
          return None;
        }
        assert rest[4..] == field[index + 4..];
        AfterByte(out, byte.value, Decoded(rest[4..]));
        out := out + [byte.value];
        index := index + 4;
      }
    }
    assert field[index..] == [];
    AfterNothing(None, out);
    return Some(out);
  }

  // ------------------------------------------------------------ paths

  datatype Component = RootDir | CurDir | ParentDir | Normal(name: Text)

  /** Paths compare and nest by component, so runs of slashes and inner "." pieces do not tell them apart. */
  type Path = seq<Component>

  function Pieces(pieces: seq<Text>): Path {
    if pieces == [] then []
    else (if pieces[0] == [] || pieces[0] == [DOT] then [] else if pieces[0] == [DOT, DOT] then [ParentDir] else [Normal(pieces[0])])
         + Pieces(pieces[1..])
  }

  function PathOf(text: Text): Path {
    var pieces := Split(text, SLASH);
    if text == [] then []
    else if text[0] == SLASH then [RootDir] + Pieces(pieces)
    else (if pieces[0] == [DOT] then [CurDir] else []) + Pieces(pieces)
  }

  predicate IsAbsolute(path: Path) {
    path != [] && path[0] == RootDir
  }

  predicate CanonicalAbsolute(path: Path) {
    IsAbsolute(path) && ParentDir !in path && CurDir !in path
  }

  lemma {:induction false} PiecesClimb(pieces: seq<Text>)
    ensures RootDir !in Pieces(pieces) && CurDir !in Pieces(pieces)
    ensures ParentDir in Pieces(pieces) <==> [DOT, DOT] in pieces
  {
    if pieces != [] {
      PiecesClimb(pieces[1..]);
    }
  }

  /** The canonical-path test accepts exactly the texts that begin with a slash and have no ".." piece; doubled slashes
      and "." pieces pass. */
  lemma CanonicalMeans(text: Text)
    ensures CanonicalAbsolute(PathOf(text)) <==> text != [] && text[0] == SLASH && [DOT, DOT] !in Split(text, SLASH)
  {
    PiecesClimb(Split(text, SLASH));
  }

  // ------------------------------------------------------------ reading mountinfo

  datatype Mount = Mount(point: Path, options: set<Text>, superOptions: set<Text>)

  datatype Line = Line(id: nat, mount: Mount)

  predicate IsSpace(byte: nat) {
    byte == SPACE || byte == TAB || byte == LF || byte == FORM_FEED || byte == RETURN
  }

  /** Maximal runs of non-space bytes. */
  function Fields(text: Text, pending: Text): seq<Text>
    decreases |text|
  {
    if text == [] then (if pending == [] then [] else [pending])
    else if IsSpace(text[0]) then (if pending == [] then [] else [pending]) + Fields(text[1..], [])
    else Fields(text[1..], pending + [text[0]])
  }

  /** Where the first " - " stands. */
  function Separator(text: Text, from: nat): Option<nat>
    requires from <= |text|
    decreases |text| - from
  {
    if from + 3 > |text| then None
    else if text[from..from + 3] == [SPACE, DASH, SPACE] then Some(from)
    else Separator(text, from + 1)
  }

  function Digits(text: Text, value: nat): Option<nat>
    decreases |text|
  {
    if text == [] then Some(value)
    else if !(ZERO <= text[0] < ZERO + 10) then None
    else Digits(text[1..], 10 * value + (text[0] - ZERO))
  }

  function ParseU64(text: Text): Option<nat> {
    var digits := if text != [] && text[0] == PLUS then text[1..] else text;
    if digits == [] then None
    else
      var value := Digits(digits, 0);
      if value.Some? && value.value > U64_MAX then None else value
  }

  lemma {:induction false} DigitsAppend(text: Text, digit: nat, value: nat)
    requires ZERO <= digit < ZERO + 10
    ensures Digits(text + [digit], value) ==
            if Digits(text, value).None? then None else Some(10 * Digits(text, value).value + (digit - ZERO))
    decreases |text|
  {
    if text == [] {
      assert text + [digit] == [digit] && [digit][1..] == [];
    } else {
      assert (text + [digit])[0] == text[0] && (text + [digit])[1..] == text[1..] + [digit];
      if ZERO <= text[0] < ZERO + 10 {
        DigitsAppend(text[1..], digit, 10 * value + (text[0] - ZERO));
      }
    }
  }

  lemma {:induction false} DecimalDigits(n: nat)
    ensures Digits(Decimal(n), 0) == Some(n)
  {
    if n < 10 {
      assert Decimal(n)[1..] == [];
    } else {
      DecimalDigits(n / 10);
      DigitsAppend(Decimal(n / 10), ZERO + n % 10, 0);
    }
  }

  /** An id written in decimal is read back, up to the 64-bit range and no further. */
  lemma DecimalIdIsRead(n: nat)
    ensures ParseU64(Decimal(n)) == if n <= U64_MAX then Some(n) else None
  {
    DecimalDigits(n);
    assert Decimal(n)[0] in Decimal(n);
  }

  function OptionSet(field: Text): set<Text> {
    set option | option in Split(field, COMMA)
  }

  /** What one line says, unless it is malformed by itself. */
  function ParseLine(line: Text): (parsed: Option<Line>)
    ensures parsed.Some? ==> parsed.value.id > 0 && CanonicalAbsolute(parsed.value.mount.point)
  {
    var at := Separator(line, 0);
    if at.None? || at.value + 3 > |line| then None
    else
      var fields, after := Fields(line[..at.value], []), Fields(line[at.value + 3..], []);
      if |fields| < 6 || |after| < 3 then None
      else
        var id, point := ParseU64(fields[0]), Decoded(fields[4]);
        if id.None? || id.value == 0 || point.None? || !CanonicalAbsolute(PathOf(point.value)) then None
        else Some(Line(id.value, Mount(PathOf(point.value), OptionSet(fields[5]), OptionSet(after[2]))))
  }

  /** The lines of a text; a final newline ends the last one rather than starting another. */
  function Lines(text: Text): seq<Text> {
    var pieces := Split(text, LF);
    if pieces[|pieces| - 1] == [] then pieces[..|pieces| - 1] else pieces
  }

  /** A readable table: every line parses, and neither an id nor a mount point occurs twice. */
  ghost predicate Readable(lines: seq<Text>) {
    && lines != []
    && (forall i :: 0 <= i < |lines| ==> ParseLine(lines[i]).Some?)
    && (forall i, j :: 0 <= i < j < |lines| ==>
          && ParseLine(lines[i]).value.id != ParseLine(lines[j]).value.id
          && ParseLine(lines[i]).value.mount.point != ParseLine(lines[j]).value.mount.point)
  }

  ghost predicate DistinctPoints(mounts: seq<Mount>) {
    forall i, j :: 0 <= i < j < |mounts| ==> mounts[i].point != mounts[j].point
  }

  ghost predicate ReadableText(text: Text, isUtf8: Text -> bool) {
    isUtf8(text) && NUL !in text && RETURN !in text && Readable(Lines(text))
  }

  /** The mounts a readable text lists, line by line. */
  ghost function Table(text: Text): seq<Mount>
    requires Readable(Lines(text))
  {
    seq(|Lines(text)|, i requires 0 <= i < |Lines(text)| => ParseLine(Lines(text)[i]).value.mount)
  }

  /** What counts as UTF-8 is the caller's.  Escapes stand for single ASCII bytes, so decoding a field keeps it so. */
  method ParseMountInfo(text: Text, isUtf8: Text -> bool) returns (mounts: Option<seq<Mount>>)
    ensures mounts.Some? <==> ReadableText(text, isUtf8)
    ensures mounts.Some? ==>
              && mounts.value == Table(text) && DistinctPoints(mounts.value)
              && forall m :: m in mounts.value ==> CanonicalAbsolute(m.point)
  {
    hide ParseLine, CanonicalAbsolute, Lines;
    if !isUtf8(text) || NUL in text || RETURN in text {
      return None;
    }
    var lines := Lines(text);
    var read: seq<Mount> := [];
    var ids: set<nat> := {};
    var points: set<Path> := {};
    var i := 0;
    while i < |lines|
      invariant i <= |lines| && |read| == i
      invariant forall j :: 0 <= j < i ==> ParseLine(lines[j]).Some? && read[j] == ParseLine(lines[j]).value.mount
      invariant forall j :: 0 <= j < i ==> CanonicalAbsolute(read[j].point)
      invariant ids == set j | 0 <= j < i :: ParseLine(lines[j]).value.id
      invariant points == set j | 0 <= j < i :: ParseLine(lines[j]).value.mount.point
      invariant forall j, k :: 0 <= j < k < i ==>
                  && ParseLine(lines[j]).value.id != ParseLine(lines[k]).value.id
                  && ParseLine(lines[j]).value.mount.point != ParseLine(lines[k]).value.mount.point
    {
      var parsed := ParseLine(lines[i]);
      if parsed.None? {
        return None;
      }
      if parsed.value.id in ids || parsed.value.mount.point in points {
        return None;
      }
      ids := ids + {parsed.value.id};
      points := points + {parsed.value.mount.point};
      read := read + [parsed.value.mount];
      i := i + 1;
    }
    if read == [] {
      return None;
    }
    return Some(read);
  }

  // ------------------------------------------------------------ the covering mount

  predicate Covers(mount: Mount, path: Path) {
    mount.point <= path
  }

  /** The deepest mount above a path: it covers, and every other covering mount is strictly shallower. */
  ghost predicate IsCovering(mounts: seq<Mount>, path: Path, mount: Mount) {
    && mount in mounts && Covers(mount, path)
    && forall m :: m in mounts && Covers(m, path) && m != mount ==> |m.point| < |mount.point|
  }

  /** The last of the deepest covering mounts, as a fold over the list. */
  method CoveringMount(mounts: seq<Mount>, path: Path) returns (covering: Option<Mount>)
    ensures covering.Some? <==> exists m :: m in mounts && Covers(m, path)
    ensures covering.Some? ==> covering.value in mounts && Covers(covering.value, path)
    ensures covering.Some? ==> forall m :: m in mounts && Covers(m, path) ==> |m.point| <= |covering.value.point|
    ensures covering.Some? && DistinctPoints(mounts) ==> IsCovering(mounts, path, covering.value)
  {
    covering := None;
    var i := 0;
    while i < |mounts|
      invariant i <= |mounts|
      invariant covering.Some? <==> exists m :: m in mounts[..i] && Covers(m, path)
      invariant covering.Some? ==> covering.value in mounts[..i] && Covers(covering.value, path)
      invariant covering.Some? ==> forall m :: m in mounts[..i] && Covers(m, path) ==> |m.point| <= |covering.value.point|
    {
      assert mounts[..i + 1] == mounts[..i] + [mounts[i]];
      if Covers(mounts[i], path) && (covering.None? || |mounts[i].point| >= |covering.value.point|) {
        covering := Some(mounts[i]);
      }
      i := i + 1;
    }
    assert mounts[..i] == mounts;
    if covering.Some? && DistinctPoints(mounts) {
      DeepestIsUnique(mounts, path, covering.value);
    }
  }

  /** Mounts above one path with the same depth are at the same point, and points are distinct. */
  lemma DeepestIsUnique(mounts: seq<Mount>, path: Path, mount: Mount)
    requires DistinctPoints(mounts) && mount in mounts && Covers(mount, path)
    requires forall m :: m in mounts && Covers(m, path) ==> |m.point| <= |mount.point|
    ensures IsCovering(mounts, path, mount)
  {
    forall m | m in mounts && Covers(m, path) && m != mount ensures |m.point| < |mount.point| {
      var i :| 0 <= i < |mounts| && mounts[i] == m;
      var j :| 0 <= j < |mounts| && mounts[j] == mount;
      assert m.point == path[..|m.point|] && mount.point == path[..|mount.point|];
    }
  }

  lemma CoveringIsUnique(mounts: seq<Mount>, path: Path, a: Mount, b: Mount)
    requires IsCovering(mounts, path, a) && IsCovering(mounts, path, b)
    ensures a == b
  {
  }

  // ------------------------------------------------------------ admitting a namespace

  const RW: Text := [114, 119]
  const RO: Text := [114, 111]

  function Absolute(names: seq<Text>): Path {
    [RootDir] + seq(|names|, i requires 0 <= i < |names| => Normal(names[i]))
  }

  const PRIVATE_API_ROOTS: seq<Path> := [
    Absolute([Ascii("dev")]), Absolute([Ascii("proc")]), Absolute([Ascii("sys")]), Absolute([Ascii("tmp")]),
    Absolute([Ascii("var"), Ascii("tmp")])]

  const PROTECTED: seq<Path> := [
    [RootDir], Absolute([Ascii("usr")]), Absolute([Ascii("boot")]), Absolute([Ascii("etc")]), Absolute([Ascii("srv")])]

  /** At or below a root where writing is allowed. */
  predicate InWriteRoot(required: set<Path>, path: Path) {
    || (exists root :: root in PRIVATE_API_ROOTS && root <= path)
    || (exists root :: root in required && root <= path)
  }

  ghost predicate WritableAt(mounts: seq<Mount>, path: Path) {
    exists m :: IsCovering(mounts, path, m) && RW in m.options && RW in m.superOptions
  }

  ghost predicate ReadOnlyAt(mounts: seq<Mount>, path: Path) {
    exists m :: IsCovering(mounts, path, m) && RO in m.options
  }

  /** The closed profile: required roots writable, protected roots read-only, nothing else writable. */
  ghost predicate Admitted(mounts: seq<Mount>, required: set<Path>) {
    && (forall path :: path in required ==> WritableAt(mounts, path))
    && (forall path :: path in PROTECTED ==> ReadOnlyAt(mounts, path))
    && (forall m :: m in mounts && RW in m.options ==> InWriteRoot(required, m.point))
  }

  method RequiredAreWritable(mounts: seq<Mount>, required: set<Path>) returns (ok: bool)
    requires DistinctPoints(mounts)
    ensures ok <==> forall path :: path in required ==> WritableAt(mounts, path)
  {
    var rest := required;
    while rest != {}
      invariant rest <= required
      invariant forall path :: path in required && path !in rest ==> WritableAt(mounts, path)
      decreases |rest|
    {
      var path :| path in rest;
      var covering := CoveringMount(mounts, path);
      if covering.None? || RW !in covering.value.options || RW !in covering.value.superOptions {
        return false;
      }
      rest := rest - {path};
    }
    return true;
  }

  method ProtectedAreReadOnly(mounts: seq<Mount>, roots: seq<Path>) returns (ok: bool)
    requires DistinctPoints(mounts)
    ensures ok <==> forall path :: path in roots ==> ReadOnlyAt(mounts, path)
  {
    var i := 0;
    while i < |roots|
      invariant i <= |roots|
      invariant forall j :: 0 <= j < i ==> ReadOnlyAt(mounts, roots[j])
    {
      var covering := CoveringMount(mounts, roots[i]);
      if covering.None? || RO !in covering.value.options {
        assert roots[i] in roots;
        return false;
      }
      i := i + 1;
    }
    return true;
  }

  method WritableAreAdmitted(mounts: seq<Mount>, required: set<Path>) returns (ok: bool)
    ensures ok <==> forall m :: m in mounts && RW in m.options ==> InWriteRoot(required, m.point)
  {
    var i := 0;
    while i < |mounts|
      invariant i <= |mounts|
      invariant forall j :: 0 <= j < i && RW in mounts[j].options ==> InWriteRoot(required, mounts[j].point)
    {
      if RW in mounts[i].options && !InWriteRoot(required, mounts[i].point) {
        assert mounts[i] in mounts;
        return false;
      }
      i := i + 1;
    }
    return true;
  }

  /** The three checks in order. */
  method ValidateMountNamespace(mounts: seq<Mount>, required: set<Path>) returns (ok: bool)
    requires DistinctPoints(mounts)
    ensures ok <==> Admitted(mounts, required)
  {
    ok := RequiredAreWritable(mounts, required);
    if !ok {
      return;
    }
    ok := ProtectedAreReadOnly(mounts, PROTECTED);
    if !ok {
      return;
    }
    ok := WritableAreAdmitted(mounts, required);
  }

  // ------------------------------------------------------------ what admission means for every path

  /** An admitted namespace covers every absolute path. */
  lemma EveryPathIsCovered(mounts: seq<Mount>, required: set<Path>, path: Path)
    requires Admitted(mounts, required) && DistinctPoints(mounts) && IsAbsolute(path)
    ensures exists m :: IsCovering(mounts, path, m)
  {
    assert PROTECTED[0] in PROTECTED;
    var root :| IsCovering(mounts, [RootDir], root) && RO in root.options;
    assert root.point <= path;
    SomeCovering(mounts, path, root);
  }

  lemma {:induction false} SomeCovering(mounts: seq<Mount>, path: Path, candidate: Mount)
    requires DistinctPoints(mounts) && candidate in mounts && Covers(candidate, path)
    ensures exists m :: IsCovering(mounts, path, m)
    decreases |path| - |candidate.point|
  {
    if exists m :: m in mounts && Covers(m, path) && |m.point| > |candidate.point| {
      var deeper :| deeper in mounts && Covers(deeper, path) && |deeper.point| > |candidate.point|;
      SomeCovering(mounts, path, deeper);
    } else {
      DeepestIsUnique(mounts, path, candidate);
    }
  }

  /** Writes are confined: outside the write roots no path is covered by a writable mount. */
  lemma WritesAreConfined(mounts: seq<Mount>, required: set<Path>, path: Path, mount: Mount)
    requires Admitted(mounts, required) && IsCovering(mounts, path, mount) && !InWriteRoot(required, path)
    ensures RW !in mount.options
  {
    if RW in mount.options {
      assert InWriteRoot(required, mount.point);
      InnerPathsStayInside(required, mount.point, path);
      assert false;
    }
  }

  lemma InnerPathsStayInside(required: set<Path>, outer: Path, inner: Path)
    requires InWriteRoot(required, outer) && outer <= inner
    ensures InWriteRoot(required, inner)
  {
    if exists root :: root in PRIVATE_API_ROOTS && root <= outer {
      var root :| root in PRIVATE_API_ROOTS && root <= outer;
      assert root <= inner;
    } else {
      var root :| root in required && root <= outer;
      assert root <= inner;
    }
  }

  ghost predicate Confined(mounts: seq<Mount>, required: set<Path>) {
    forall path, m :: IsAbsolute(path) && !InWriteRoot(required, path) && IsCovering(mounts, path, m) ==> RW !in m.options
  }

  /** The finite check over the listed mounts says exactly that: it holds if and only if every path outside the
      write roots is covered by a mount that is not writable. */
  lemma FiniteCheckIsExact(mounts: seq<Mount>, required: set<Path>)
    requires DistinctPoints(mounts) && forall m :: m in mounts ==> CanonicalAbsolute(m.point)
    ensures (forall m :: m in mounts && RW in m.options ==> InWriteRoot(required, m.point)) <==> Confined(mounts, required)
  {
    if forall m :: m in mounts && RW in m.options ==> InWriteRoot(required, m.point) {
      forall path, m | IsAbsolute(path) && !InWriteRoot(required, path) && IsCovering(mounts, path, m) ensures RW !in m.options {
        if RW in m.options {
          InnerPathsStayInside(required, m.point, path);
          assert false;
        }
      }
    } else if Confined(mounts, required) {
      forall m | m in mounts && RW in m.options ensures InWriteRoot(required, m.point) {
        assert Covers(m, m.point);
        DeepestIsUnique(mounts, m.point, m);
        assert IsAbsolute(m.point);
      }
    }
  }

  /** One covering mount, and it is not writable. */
  ghost predicate NotWritableAt(mounts: seq<Mount>, path: Path) {
    exists m :: IsCovering(mounts, path, m) && RW !in m.options && forall n :: IsCovering(mounts, path, n) ==> n == m
  }

  lemma ConfinedMeans(mounts: seq<Mount>, required: set<Path>, path: Path)
    requires Admitted(mounts, required) && DistinctPoints(mounts) && IsAbsolute(path) && !InWriteRoot(required, path)
    ensures NotWritableAt(mounts, path)
  {
    EveryPathIsCovered(mounts, required, path);
    var m :| IsCovering(mounts, path, m);
    WritesAreConfined(mounts, required, path, m);
    forall n | IsCovering(mounts, path, n) ensures n == m {
      CoveringIsUnique(mounts, path, m, n);
    }
  }

  ghost predicate Admissible(text: Text, isUtf8: Text -> bool, required: set<Path>) {
    && ReadableText(text, isUtf8)
    && (forall path :: path in required ==> WritableAt(Table(text), path))
    && (forall path :: path in PROTECTED ==> ReadOnlyAt(Table(text), path))
    && Confined(Table(text), required)
  }

  /** From the text the kernel wrote to every path there is: a namespace is admitted exactly when its text is readable,
      the required roots are writable, the protected ones read-only and writes confined to the write roots; and then
      every absolute path outside those roots has one covering mount among the listed ones, which is not writable. */
  method AdmitMountInfo(text: Text, isUtf8: Text -> bool, required: set<Path>) returns (ok: bool)
    ensures ok <==> Admissible(text, isUtf8, required)
    ensures ok ==> forall path :: IsAbsolute(path) && !InWriteRoot(required, path) ==> NotWritableAt(Table(text), path)
  {
    hide Readable, Table, CanonicalAbsolute, Confined, IsCovering, InWriteRoot, IsAbsolute, NotWritableAt;
    var mounts := ParseMountInfo(text, isUtf8);
    if mounts.None? {
      return false;
    }
    ok := ValidateMountNamespace(mounts.value, required);
    FiniteCheckIsExact(mounts.value, required);
    if ok {
      forall path | IsAbsolute(path) && !InWriteRoot(required, path) ensures NotWritableAt(mounts.value, path) {
        ConfinedMeans(mounts.value, required, path);
      }
    }
  }
}
