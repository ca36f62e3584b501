/** Byte strings: splitting, bytewise order, decimal lengths. */
module ByteStrings {
  import opened Basics
  import opened Paging

  const NUL: nat := 0
  const LF: nat := 10
  const SPACE: nat := 32
  const DOT: nat := 46
  const SLASH: nat := 47
  const BACKSLASH: nat := 92
  const ZERO: nat := 48

  /** The pieces between separators: always at least one, possibly empty. */
  function Split(text: Bytes, separator: nat): (pieces: seq<Bytes>)
    ensures pieces != []
  {
    if text == [] then [[]]
    else
      var rest := Split(text[1..], separator);
      if text[0] == separator then [[]] + rest else [[text[0]] + rest[0]] + rest[1..]
  }

  function Join(pieces: seq<Bytes>, separator: nat): Bytes
    requires pieces != []
  {
    if |pieces| == 1 then pieces[0] else pieces[0] + [separator] + Join(pieces[1..], separator)
  }

  lemma SplitUnfolds(text: Bytes, separator: nat)
    ensures Split([], separator) == [[]]
    ensures text != [] ==> Split(text, separator) == AddByte(text[0], separator, Split(text[1..], separator))
  {
  }

  /** One more byte in front of a split text. */
  function AddByte(byte: nat, separator: nat, pieces: seq<Bytes>): seq<Bytes>
    requires pieces != []
  {
    if byte == separator then [[]] + pieces else [[byte] + pieces[0]] + pieces[1..]
  }

  lemma AddByteConcat(byte: nat, separator: nat, pieces: seq<Bytes>, more: seq<Bytes>)
    requires pieces != []
    ensures AddByte(byte, separator, pieces + more) == AddByte(byte, separator, pieces) + more
  {
    assert (pieces + more)[0] == pieces[0] && (pieces + more)[1..] == pieces[1..] + more;
  }

  lemma {:induction false} SplitConcat(a: Bytes, b: Bytes, separator: nat)
    ensures Split(a + [separator] + b, separator) == Split(a, separator) + Split(b, separator)
  {
    hide Split;
    var whole := a + [separator] + b;
    SplitUnfolds(whole, separator);
    SplitUnfolds(a, separator);
    if a == [] {
      assert whole[1..] == b;
    } else {
      SplitConcat(a[1..], b, separator);
      assert whole[1..] == a[1..] + [separator] + b && whole[0] == a[0];
      AddByteConcat(a[0], separator, Split(a[1..], separator), Split(b, separator));
    }
  }

  lemma {:induction false} JoinSplit(text: Bytes, separator: nat)
    ensures Join(Split(text, separator), separator) == text
  {
    if text != [] {
      JoinSplit(text[1..], separator);
      var pieces, rest := Split(text, separator), Split(text[1..], separator);
      if text[0] == separator {
        assert pieces[1..] == rest;
      } else if |rest| > 1 {
        assert pieces[1..] == rest[1..];
      }
    }
  }

  lemma {:induction false} JoinConcat(a: seq<Bytes>, b: seq<Bytes>, separator: nat)
    requires a != [] && b != []
    ensures Join(a + b, separator) == Join(a, separator) + [separator] + Join(b, separator)
  {
    assert (a + b)[1..] == a[1..] + b && (a + b)[0] == a[0];
    if |a| > 1 {
      JoinConcat(a[1..], b, separator);
    }
  }

  lemma {:induction false} SplitWhole(text: Bytes, separator: nat)
    requires separator !in text
    ensures Split(text, separator) == [text]
  {
    if text != [] {
      SplitWhole(text[1..], separator);
      assert text == [text[0]] + text[1..];
    }
  }

  lemma {:induction false} SplitJoin(pieces: seq<Bytes>, separator: nat)
    requires pieces != [] && forall piece :: piece in pieces ==> separator !in piece
    ensures Split(Join(pieces, separator), separator) == pieces
  {
    hide Split;
    SplitWhole(pieces[0], separator);
    if |pieces| > 1 {
      SplitJoin(pieces[1..], separator);
      SplitConcat(pieces[0], Join(pieces[1..], separator), separator);
      assert pieces == [pieces[0]] + pieces[1..];
    }
  }

  lemma {:induction false} PiecesLackSeparator(text: Bytes, separator: nat)
    ensures forall piece :: piece in Split(text, separator) ==> separator !in piece
  {
    if text != [] {
      PiecesLackSeparator(text[1..], separator);
    }
  }

  // ------------------------------------------------------------ path components

  predicate IsEmptyOrDot(piece: Bytes) {
    piece == [] || piece == [DOT]
  }

  /** The components a POSIX path library keeps of the pieces between slashes: empty and dot pieces vanish. */
  function Meaningful(pieces: seq<Bytes>): (kept: seq<Bytes>)
    ensures forall piece :: piece in kept <==> piece in pieces && !IsEmptyOrDot(piece)
  {
    if pieces == [] then []
    else (if IsEmptyOrDot(pieces[0]) then [] else [pieces[0]]) + Meaningful(pieces[1..])
  }

  /** Piece by piece: an empty or dot piece vanishes, any other stays where it is. */
  lemma MeaningfulFirst(piece: Bytes, pieces: seq<Bytes>)
    ensures Meaningful([]) == []
    ensures Meaningful([piece] + pieces) == (if piece == [] || piece == [46] then [] else [piece]) + Meaningful(pieces)
  {
    assert ([piece] + pieces)[1..] == pieces;
  }

  lemma {:induction false} NothingDropped(pieces: seq<Bytes>)
    requires forall piece :: piece in pieces ==> !IsEmptyOrDot(piece)
    ensures Meaningful(pieces) == pieces
  {
    if pieces != [] {
      NothingDropped(pieces[1..]);
    }
  }

  // ------------------------------------------------------------ bytewise order

  predicate Below(a: Bytes, b: Bytes) {
    b != [] && (a == [] || a[0] < b[0] || (a[0] == b[0] && Below(a[1..], b[1..])))
  }

  lemma {:induction false} BelowIrreflexive(a: Bytes)
    ensures !Below(a, a)
  {
    if a != [] {
      BelowIrreflexive(a[1..]);
    }
  }

  lemma {:induction false} BelowConnects(a: Bytes, b: Bytes)
    ensures a == b || Below(a, b) || Below(b, a)
  {
    if a != [] && b != [] && a[0] == b[0] {
      BelowConnects(a[1..], b[1..]);
      assert a == [a[0]] + a[1..] && b == [b[0]] + b[1..];
    }
  }

  lemma {:induction false} BelowChains(a: Bytes, b: Bytes, c: Bytes)
    requires Below(a, b) && Below(b, c)
    ensures Below(a, c)
  {
    if a != [] && a[0] == b[0] == c[0] {
      BelowChains(a[1..], b[1..], c[1..]);
    }
  }

  /** The first byte in which the texts differ is smaller, or the first text ends there. */
  ghost predicate SmallerAt(a: Bytes, b: Bytes, k: nat) {
    k <= |a| && k < |b| && a[..k] == b[..k] && (k == |a| || a[k] < b[k])
  }

  lemma {:induction false} BelowIsSmaller(a: Bytes, b: Bytes) returns (k: nat)
    requires Below(a, b)
    ensures SmallerAt(a, b, k)
  {
    if a != [] && a[0] == b[0] {
      var below := BelowIsSmaller(a[1..], b[1..]);
      k := below + 1;
      assert a[..k] == [a[0]] + a[1..][..k - 1] && b[..k] == [b[0]] + b[1..][..k - 1];
    } else {
      k := 0;
    }
  }

  lemma {:induction false} SmallerIsBelow(a: Bytes, b: Bytes, k: nat)
    requires SmallerAt(a, b, k)
    ensures Below(a, b)
    decreases k
  {
    if k > 0 {
      assert a[0] == a[..k][0] && b[0] == b[..k][0];
      assert a[1..][..k - 1] == a[..k][1..] && b[1..][..k - 1] == b[..k][1..];
      SmallerIsBelow(a[1..], b[1..], k - 1);
    }
  }

  lemma BelowMeans(a: Bytes, b: Bytes)
    ensures Below(a, b) <==> exists k: nat :: SmallerAt(a, b, k)
  {
    if Below(a, b) {
      var k := BelowIsSmaller(a, b);
    }
    forall k: nat | SmallerAt(a, b, k) ensures Below(a, b) {
      SmallerIsBelow(a, b, k);
    }
  }

  lemma BelowIsTotalOrder()
    ensures TotalOrder(Below)
  {
    forall a ensures !Below(a, a) {
      BelowIrreflexive(a);
    }
    forall a, b ensures a == b || Below(a, b) || Below(b, a) {
      BelowConnects(a, b);
    }
    forall a, b, c | Below(a, b) && Below(b, c) ensures Below(a, c) {
      BelowChains(a, b, c);
    }
  }

  ghost function Sorted(keys: set<Bytes>): (listing: seq<Bytes>)
    ensures Increasing(Below, listing) && Elements(listing) == keys
    decreases |keys|
  {
    if keys == {} then []
    else
      BelowIsTotalOrder();
      LeastExists(Below, keys);
      var least :| least in keys && forall k :: k in keys ==> k == least || Below(least, k);
      var rest := Sorted(keys - {least});
      LeastFirst(Below, least, rest);
      [least] + rest
  }

  /** There is only one increasing listing, so neither dictionary order nor the sorting algorithm shows. */
  lemma {:induction false} ListingIsUnique(a: seq<Bytes>, b: seq<Bytes>)
    requires Increasing(Below, a) && Increasing(Below, b) && Elements(a) == Elements(b)
    ensures a == b
  {
    BelowIsTotalOrder();
    IncreasingIsDistinct(Below, a);
    IncreasingIsDistinct(Below, b);
    if a != [] {
      assert a[0] in Elements(a) && b[0] in Elements(b);
      assert a[0] == b[0];
      forall k ensures k in Elements(a[1..]) <==> k in Elements(b[1..]) {
        assert k in Elements(a) <==> k == a[0] || k in Elements(a[1..]);
        assert k in Elements(b) <==> k == b[0] || k in Elements(b[1..]);
      }
      ListingIsUnique(a[1..], b[1..]);
    }
  }

  // ------------------------------------------------------------ cutting at the first separator

  /** A prefix without the separator and what follows it are determined by the whole. */
  lemma CutIsUnique(a: Bytes, b: Bytes, restA: Bytes, restB: Bytes, separator: nat)
    requires separator !in a && separator !in b
    requires a + [separator] + restA == b + [separator] + restB
    ensures a == b && restA == restB
  {
    var x, y := a + [separator] + restA, b + [separator] + restB;
    assert x[|a|] == separator && forall i :: 0 <= i < |a| ==> x[i] == a[i];
    assert y[|b|] == separator && forall i :: 0 <= i < |b| ==> y[i] == b[i];
    assert |a| == |b|;
    assert a == x[..|a|] && b == y[..|b|];
    assert restA == x[|a| + 1..] && restB == y[|b| + 1..];
  }

  // ------------------------------------------------------------ decimal

  function Decimal(n: nat): (digits: Bytes)
    ensures digits != [] && forall d :: d in digits ==> ZERO <= d < ZERO + 10
  {
    if n < 10 then [ZERO + n] else Decimal(n / 10) + [ZERO + n % 10]
  }

  /** What decimal digits say, read from the left. */
  ghost function ReadDecimal(digits: Bytes): int {
    if digits == [] then 0 else 10 * ReadDecimal(digits[..|digits| - 1]) + (digits[|digits| - 1] - '0' as int)
  }

  lemma {:induction false} DecimalMeans(n: nat)
    ensures ReadDecimal(Decimal(n)) == n
    ensures forall d :: d in Decimal(n) ==> '0' as int <= d <= '9' as int
    ensures |Decimal(n)| > 1 ==> Decimal(n)[0] != '0' as int
  {
    if n >= 10 {
      DecimalMeans(n / 10);
      assert Decimal(n)[..|Decimal(n)| - 1] == Decimal(n / 10);
      assert n / 10 > 0 && |Decimal(n / 10)| == 1 ==> Decimal(n / 10)[0] != '0' as int;
    } else {
      assert Decimal(n)[..0] == [];
    }
  }

  function Ascii(text: string): Bytes {
    seq(|text|, i requires 0 <= i < |text| => text[i] as nat)
  }
}
