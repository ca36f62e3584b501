/** The canonical base64 form of opaque bytes (section 4 of RFC 4648), its length, and the frame budget built on it. */
module Base64 {
  import opened Basics

  type Byte = n: nat | n < 256
  type Sextet = n: nat | n < 64

  // ------------------------------------------------------------ the alphabet

  function Symbol(v: Sextet): char {
    if v < 26 then 'A' + v as char
    else if v < 52 then 'a' + (v - 26) as char
    else if v < 62 then '0' + (v - 52) as char
    else if v == 62 then '+'
    else '/'
  }

  function ValueOf(c: char): Option<Sextet> {
    if 'A' <= c <= 'Z' then Some((c - 'A') as nat)
    else if 'a' <= c <= 'z' then Some(26 + (c - 'a') as nat)
    else if '0' <= c <= '9' then Some(52 + (c - '0') as nat)
    else if c == '+' then Some(62)
    else if c == '/' then Some(63)
    else None
  }

  /** Table 1 of RFC 4648: the capitals, the small letters and the digits, each in order, then '+' and '/'. */
  ghost function Alphabet(v: Sextet): int {
    if v == 0 then 'A' as int
    else if v == 26 then 'a' as int
    else if v == 52 then '0' as int
    else if v == 62 then '+' as int
    else if v == 63 then '/' as int
    else Alphabet(v - 1) + 1
  }

  lemma {:induction false} SymbolsAreTheAlphabet(v: Sextet)
    ensures Symbol(v) as int == Alphabet(v)
  {
    if v != 0 {
      SymbolsAreTheAlphabet(v - 1);
    }
  }

  lemma SymbolsAreTold(v: Sextet)
    ensures ValueOf(Symbol(v)) == Some(v) && Symbol(v) != '='
  {
  }

  // ------------------------------------------------------------ encoding

  function Encode(bytes: seq<Byte>): (text: string)
    ensures |text| == (|bytes| + 2) / 3 * 4
    decreases |bytes|
  {
    if bytes == [] then ""
    else if |bytes| == 1 then [Symbol(bytes[0] / 4), Symbol(bytes[0] % 4 * 16), '=', '=']
    else if |bytes| == 2 then
      [Symbol(bytes[0] / 4), Symbol(bytes[0] % 4 * 16 + bytes[1] / 16), Symbol(bytes[1] % 16 * 4), '=']
    else
      [Symbol(bytes[0] / 4), Symbol(bytes[0] % 4 * 16 + bytes[1] / 16), Symbol(bytes[1] % 16 * 4 + bytes[2] / 64), Symbol(bytes[2] % 64)]
      + Encode(bytes[3..])
  }

  /** Three bytes as one number, those missing at the end being zero. */
  ghost function Group(bytes: seq<Byte>, g: nat): nat {
    ByteAt(bytes, 3 * g) * 0x10000 + ByteAt(bytes, 3 * g + 1) * 0x100 + ByteAt(bytes, 3 * g + 2)
  }

  ghost function ByteAt(bytes: seq<Byte>, k: nat): Byte {
    if k < |bytes| then bytes[k] else 0
  }

  /** The four six-bit digits of such a number. */
  ghost function Digit(group: nat, k: nat): Sextet {
    if k == 0 then group / 0x40000 % 64 else if k == 1 then group / 0x1000 % 64 else if k == 2 then group / 64 % 64 else group % 64
  }

  /** Section 4 of RFC 4648: each group of three bytes is written as four digits of the alphabet, and digits that hold
      no bit of the input are written as padding. */
  lemma {:induction false} EncodesInGroups(bytes: seq<Byte>, i: nat)
    requires i < |Encode(bytes)|
    ensures Encode(bytes)[i] as int == if 6 * i < 8 * |bytes| then Alphabet(Digit(Group(bytes, i / 4), i % 4)) else '=' as int
    decreases |bytes|
  {
    hide Alphabet, Symbol, Digit, Encode;
    if i < 4 {
      assert bytes != [];
      FirstGroup(bytes, i);
    } else {
      var rest := bytes[3..];
      assert bytes == [bytes[0], bytes[1], bytes[2]] + rest;
      EncodeGroup(bytes[0], bytes[1], bytes[2], rest);
      EncodesInGroups(rest, i - 4);
      NextGroup(bytes, i / 4);
      assert (i - 4) / 4 == i / 4 - 1 && (i - 4) % 4 == i % 4;
    }
  }

  lemma NextGroup(bytes: seq<Byte>, g: nat)
    requires |bytes| >= 3 && g > 0
    ensures Group(bytes, g) == Group(bytes[3..], g - 1)
  {
  }

  lemma GroupDigits(a: Byte, b: Byte, c: Byte)
    ensures Digit(a * 0x10000 + b * 0x100 + c, 0) == a / 4
    ensures Digit(a * 0x10000 + b * 0x100 + c, 1) == a % 4 * 16 + b / 16
    ensures Digit(a * 0x10000 + b * 0x100 + c, 2) == b % 16 * 4 + c / 64
    ensures Digit(a * 0x10000 + b * 0x100 + c, 3) == c % 64
  {
    By64(a / 4, 0, a / 4);
    By64(16 * a + b / 16, a / 4, a % 4 * 16 + b / 16);
    By64(1024 * a + 4 * b + c / 64, 16 * a + b / 16, b % 16 * 4 + c / 64);
    By64(a * 0x10000 + b * 0x100 + c, 1024 * a + 4 * b + c / 64, c % 64);
    By4096(a * 0x10000 + b * 0x100 + c, 16 * a + b / 16, b % 16 * 0x100 + c);
    By262144(a * 0x10000 + b * 0x100 + c, a / 4, a % 4 * 0x10000 + b * 0x100 + c);
  }

  lemma By64(n: int, q: int, r: int)
    requires n == 64 * q + r && 0 <= r < 64
    ensures n / 64 == q && n % 64 == r
  {
  }

  lemma By4096(n: int, q: int, r: int)
    requires n == 0x1000 * q + r && 0 <= r < 0x1000
    ensures n / 0x1000 == q
  {
  }

  lemma By262144(n: int, q: int, r: int)
    requires n == 0x40000 * q + r && 0 <= r < 0x40000
    ensures n / 0x40000 == q
  {
  }

  lemma FirstGroup(bytes: seq<Byte>, i: nat)
    requires i < 4 && bytes != []
    ensures Encode(bytes)[i] as int == if 6 * i < 8 * |bytes| then Alphabet(Digit(Group(bytes, 0), i)) else '=' as int
  {
    hide Alphabet, Symbol, Digit, Encode;
    var a, b, c := ByteAt(bytes, 0), ByteAt(bytes, 1), ByteAt(bytes, 2);
    GroupDigits(a, b, c);
    FirstSymbols(bytes, a, b, c);
    SymbolsAreTheAlphabet(Digit(Group(bytes, 0), i));
  }

  lemma FirstSymbols(bytes: seq<Byte>, a: Byte, b: Byte, c: Byte)
    requires bytes != [] && a == ByteAt(bytes, 0) && b == ByteAt(bytes, 1) && c == ByteAt(bytes, 2)
    ensures Encode(bytes)[0] == Symbol(a / 4) && Encode(bytes)[1] == Symbol(a % 4 * 16 + b / 16)
    ensures Encode(bytes)[2] == if |bytes| > 1 then Symbol(b % 16 * 4 + c / 64) else '='
    ensures Encode(bytes)[3] == if |bytes| > 2 then Symbol(c % 64) else '='
  {
    hide Symbol, Encode;
    if |bytes| > 2 {
      EncodeGroup(a, b, c, bytes[3..]);
      assert bytes == [a, b, c] + bytes[3..];
    } else {
      ShortSymbols(a, b);
      assert bytes == if |bytes| == 1 then [a] else [a, b];
    }
  }

  lemma ShortSymbols(a: Byte, b: Byte)
    ensures Encode([a]) == [Symbol(a / 4), Symbol(a % 4 * 16), '=', '=']
    ensures Encode([a, b]) == [Symbol(a / 4), Symbol(a % 4 * 16 + b / 16), Symbol(b % 16 * 4), '=']
  {
    hide Symbol;
  }

  function First(w: Sextet, x: Sextet): Byte { w * 4 + x / 16 }
  function Second(x: Sextet, y: Sextet): Byte { x % 16 * 16 + y / 4 }
  function Third(y: Sextet, z: Sextet): Byte { y % 4 * 64 + z }

  /** A decoder that does not look at the bits padding leaves over. */
  function Decode(text: string): Option<seq<Byte>>
    decreases |text|
  {
    if text == "" then Some([])
    else if |text| < 4 then None
    else
      var w, x := ValueOf(text[0]), ValueOf(text[1]);
      if w.None? || x.None? then None
      else if |text| == 4 && text[2] == '=' && text[3] == '=' then Some([First(w.value, x.value)])
      else
        var y := ValueOf(text[2]);
        if y.None? then None
        else if |text| == 4 && text[3] == '=' then Some([First(w.value, x.value), Second(x.value, y.value)])
        else
          var z, rest := ValueOf(text[3]), Decode(text[4..]);
          if z.None? || rest.None? then None
          else Some([First(w.value, x.value), Second(x.value, y.value), Third(y.value, z.value)] + rest.value)
  }

  lemma GroupRoundTrip(a: Byte, b: Byte, c: Byte)
    ensures First(a / 4, a % 4 * 16 + b / 16) == a
    ensures Second(a % 4 * 16 + b / 16, b % 16 * 4 + c / 64) == b
    ensures Third(b % 16 * 4 + c / 64, c % 64) == c
  {
  }

  lemma {:induction false} EncodedDecodes(bytes: seq<Byte>)
    ensures Decode(Encode(bytes)) == Some(bytes)
    decreases |bytes|
  {
    hide Encode, Decode;
    if bytes == [] {
      NoGroups();
    } else if |bytes| == 1 {
      ShortGroups(bytes[0], 0);
      assert bytes == [bytes[0]];
    } else if |bytes| == 2 {
      ShortGroups(bytes[0], bytes[1]);
      assert bytes == [bytes[0], bytes[1]];
    } else {
      EncodedDecodes(bytes[3..]);
      FullGroup(bytes[0], bytes[1], bytes[2], bytes[3..]);
      assert bytes == [bytes[0], bytes[1], bytes[2]] + bytes[3..];
    }
  }

  lemma NoGroups()
    ensures Decode(Encode([])) == Some([])
  {
  }

  lemma DecodeGroup(w: Sextet, x: Sextet, y: Sextet, z: Sextet, tail: string, rest: seq<Byte>)
    requires Decode(tail) == Some(rest)
    ensures Decode([Symbol(w), Symbol(x), Symbol(y), Symbol(z)] + tail) == Some([First(w, x), Second(x, y), Third(y, z)] + rest)
  {
    hide Symbol, ValueOf, First, Second, Third, Encode;
    SymbolsAreTold(w);
    SymbolsAreTold(x);
    SymbolsAreTold(y);
    SymbolsAreTold(z);
    var text := [Symbol(w), Symbol(x), Symbol(y), Symbol(z)] + tail;
    assert text[4..] == tail;
  }

  lemma EncodeGroup(a: Byte, b: Byte, c: Byte, rest: seq<Byte>)
    ensures Encode([a, b, c] + rest) ==
            [Symbol(a / 4), Symbol(a % 4 * 16 + b / 16), Symbol(b % 16 * 4 + c / 64), Symbol(c % 64)] + Encode(rest)
  {
    hide Symbol;
    var bytes := [a, b, c] + rest;
    assert bytes[3..] == rest && bytes[0] == a && bytes[1] == b && bytes[2] == c;
  }

  lemma FullGroup(a: Byte, b: Byte, c: Byte, rest: seq<Byte>)
    requires Decode(Encode(rest)) == Some(rest)
    ensures Decode(Encode([a, b, c] + rest)) == Some([a, b, c] + rest)
  {
    hide Symbol, First, Second, Third, Encode, Decode;
    GroupRoundTrip(a, b, c);
    EncodeGroup(a, b, c, rest);
    DecodeGroup(a / 4, a % 4 * 16 + b / 16, b % 16 * 4 + c / 64, c % 64, Encode(rest), rest);
  }

  lemma ShortGroups(a: Byte, b: Byte)
    ensures Decode(Encode([a])) == Some([a])
    ensures Decode(Encode([a, b])) == Some([a, b])
  {
    hide Symbol, ValueOf, First, Second, Third;
    GroupRoundTrip(a, b, 0);
    GroupRoundTrip(a, 0, 0);
    DecodeOne(a / 4, a % 4 * 16);
    DecodeTwo(a / 4, a % 4 * 16 + b / 16, b % 16 * 4);
    ShortSymbols(a, b);
  }

  lemma DecodeOne(w: Sextet, x: Sextet)
    ensures Decode([Symbol(w), Symbol(x), '=', '=']) == Some([First(w, x)])
  {
    hide Symbol, ValueOf, First;
    SymbolsAreTold(w);
    SymbolsAreTold(x);
  }

  lemma DecodeTwo(w: Sextet, x: Sextet, y: Sextet)
    ensures Decode([Symbol(w), Symbol(x), Symbol(y), '=']) == Some([First(w, x), Second(x, y)])
  {
    hide Symbol, ValueOf, First, Second;
    SymbolsAreTold(w);
    SymbolsAreTold(x);
    SymbolsAreTold(y);
  }

  // ------------------------------------------------------------ reading opaque bytes

  /** The library's decoder, of which only this is used: it undoes encoding. */
  ghost predicate Inverts(decode: string -> Option<seq<Byte>>) {
    forall bytes :: decode(Encode(bytes)) == Some(bytes)
  }

  lemma DecodeInverts()
    ensures Inverts(Decode)
  {
    forall bytes ensures Decode(Encode(bytes)) == Some(bytes) {
      EncodedDecodes(bytes);
    }
  }

  /** Decoding, then encoding again and comparing. */
  function Deserialize(decode: string -> Option<seq<Byte>>, text: string): Option<seq<Byte>> {
    var decoded := decode(text);
    if decoded.None? || Encode(decoded.value) != text then None else decoded
  }

  /** Exactly the encodings are accepted, each for its own bytes. */
  lemma AcceptsExactlyEncodings(decode: string -> Option<seq<Byte>>, text: string, bytes: seq<Byte>)
    requires Inverts(decode)
    ensures Deserialize(decode, text) == Some(bytes) <==> text == Encode(bytes)
  {
    assert decode(Encode(bytes)) == Some(bytes);
  }

  // ------------------------------------------------------------ lengths in 64 bits

  const STRUCTURAL_RESERVE: nat := 128 * 1024

  function Checked(n: nat): Option<U64> {
    if n <= U64_MAX then Some(n) else None
  }

  /** Quotient rounded up, times four; the product may overflow. */
  function LengthByCeiling(n: U64): Option<U64> {
    Checked((n / 3 + if n % 3 == 0 then 0 else 1) * 4)
  }

  /** Two added first, which may already overflow. */
  function LengthByAdding(n: U64): Option<U64> {
    var sum := Checked(n + 2);
    if sum.None? then None else Checked(sum.value / 3 * 4)
  }

  /** Both formulas give the encoded length, or overflow, on the same 64-bit inputs. */
  lemma LengthFormulasAgree(n: U64)
    ensures LengthByCeiling(n) == LengthByAdding(n)
    ensures LengthByCeiling(n).Some? ==> LengthByCeiling(n).value == (n + 2) / 3 * 4
  {
  }

  function WireBound(budget: U64): Option<U64> {
    var encoded := LengthByCeiling(budget);
    if encoded.None? then None else Checked(encoded.value + STRUCTURAL_RESERVE)
  }

  // ------------------------------------------------------------ reviewed worker profiles

  datatype Profile = Profile(
    id: string, project: string, target: string, semanticType: string, expectedType: string, executable: string,
    executableSize: U64, arguments: seq<Bytes>, timeoutMs: U64, outputBudget: U64)

  /** The tests of single names and paths, which are other modules' own. */
  datatype NameTests = NameTests(isToken: string -> bool, isProject: string -> bool, isTarget: string -> bool,
                                 isAbsolute: string -> bool)

  ghost predicate WellNamed(tests: NameTests, profile: Profile) {
    && tests.isAbsolute(profile.executable) && tests.isToken(profile.id) && tests.isProject(profile.project)
    && tests.isTarget(profile.target) && tests.isToken(profile.semanticType)
    && profile.semanticType == profile.expectedType && profile.executableSize > 0
    && |profile.arguments| <= 64
    && forall argument :: argument in profile.arguments ==> 0 < |argument| <= 4096 && 0 !in argument
  }

  datatype Limits = Limits(maxSessionSeconds: U64, maxArtifactBytes: U64, maxControlFrameBytes: U32,
                           maxClockSkewMs: U64)

  function SaturatingMillis(seconds: U64): U64 {
    if seconds * 1000 <= U64_MAX then seconds * 1000 else U64_MAX
  }

  /** In plain arithmetic: neither the saturation nor an overflow ever decides. */
  ghost predicate Fits(limits: Limits, profile: Profile) {
    && 0 < profile.timeoutMs <= limits.maxSessionSeconds * 1000 && profile.timeoutMs <= limits.maxClockSkewMs
    && 0 < profile.outputBudget <= limits.maxArtifactBytes
    && (profile.outputBudget + 2) / 3 * 4 + 131072 <= limits.maxControlFrameBytes
  }

  ghost predicate LauncherAccepted(tests: NameTests, limits: Limits, profiles: seq<Profile>) {
    && 0 < |profiles| <= 1024
    && (forall p :: p in profiles ==> WellNamed(tests, p) && Fits(limits, p))
    && forall i, j :: 0 <= i < j < |profiles| ==> profiles[i].id != profiles[j].id
  }

  method NamesAreValid(tests: NameTests, profile: Profile) returns (ok: bool)
    ensures ok <==> WellNamed(tests, profile)
  {
    if !tests.isAbsolute(profile.executable) {
      return false;
    }
    return !(|| !tests.isToken(profile.id) || !tests.isProject(profile.project) || !tests.isTarget(profile.target)
             || !tests.isToken(profile.semanticType) || profile.semanticType != profile.expectedType
             || profile.executableSize == 0 || |profile.arguments| > 64
             || exists argument :: argument in profile.arguments && (argument == [] || |argument| > 4096 || 0 in argument));
  }

  method LimitsAreKept(limits: Limits, profile: Profile) returns (ok: bool)
    ensures ok <==> Fits(limits, profile)
  {
    LengthFormulasAgree(profile.outputBudget);
    var wire := WireBound(profile.outputBudget);
    return !(|| profile.timeoutMs == 0 || profile.timeoutMs > SaturatingMillis(limits.maxSessionSeconds)
             || profile.timeoutMs > limits.maxClockSkewMs || profile.outputBudget == 0
             || profile.outputBudget > limits.maxArtifactBytes
             || wire.None? || wire.value > limits.maxControlFrameBytes);
  }

  method ValidateWorkerProfiles(tests: NameTests, limits: Limits, profiles: seq<Profile>) returns (ok: bool)
    ensures ok <==> LauncherAccepted(tests, limits, profiles)
  {
    hide WellNamed, Fits;
    if profiles == [] || |profiles| > 1024 {
      return false;
    }
    var ids: set<string> := {};
    var i := 0;
    while i < |profiles|
      invariant i <= |profiles| && ids == set j | 0 <= j < i :: profiles[j].id
      invariant forall j :: 0 <= j < i ==> WellNamed(tests, profiles[j]) && Fits(limits, profiles[j])
      invariant forall j, k :: 0 <= j < k < i ==> profiles[j].id != profiles[k].id
    {
      var named := NamesAreValid(tests, profiles[i]);
      var fits := LimitsAreKept(limits, profiles[i]);
      if !named || profiles[i].id in ids || !fits {
        assert profiles[i] in profiles;
        return false;
      }
      ids := ids + {profiles[i].id};
      i := i + 1;
    }
    return true;
  }

  /** Every candidate an accepted profile lets through encodes into one control frame with the reserve to spare, no
      arithmetic overflows on the way, and no accepted deadline outlives a session. */
  lemma CandidatesFitTheFrame(tests: NameTests, limits: Limits, profiles: seq<Profile>, profile: Profile, content: seq<Byte>)
    requires LauncherAccepted(tests, limits, profiles) && profile in profiles && |content| <= profile.outputBudget
    ensures |Encode(content)| + 131072 <= limits.maxControlFrameBytes
    ensures WireBound(|content|).Some? && |Encode(content)| + 131072 == WireBound(|content|).value
    ensures profile.timeoutMs <= limits.maxSessionSeconds * 1000
  {
    hide Encode;
    LengthFormulasAgree(|content|);
    LengthFormulasAgree(profile.outputBudget);
    LengthGrows(|content|, profile.outputBudget);
  }

  lemma LengthGrows(m: nat, n: nat)
    requires m <= n
    ensures (m + 2) / 3 * 4 <= (n + 2) / 3 * 4
  {
  }

  // ------------------------------------------------------------ provider content

  function ProviderWire(limit: U64): Option<U64> {
    var encoded := LengthByAdding(limit);
    if encoded.None? then None else Checked(encoded.value + STRUCTURAL_RESERVE)
  }

  predicate ProviderFits(maxContent: U64, maxControlFrameBytes: U32) {
    ProviderWire(maxContent).Some? && ProviderWire(maxContent).value <= maxControlFrameBytes
  }

  /** In plain arithmetic: an overflow never decides. */
  lemma ProviderFitsIff(maxContent: U64, maxControlFrameBytes: U32)
    ensures ProviderFits(maxContent, maxControlFrameBytes) <==> (maxContent + 2) / 3 * 4 + 131072 <= maxControlFrameBytes
  {
    LengthFormulasAgree(maxContent);
  }

  /** The provider's bound, computed by the other formula, is the same bound, and content within it fits the frame. */
  lemma ProviderContentFits(maxContent: U64, maxControlFrameBytes: U32, content: seq<Byte>)
    requires ProviderFits(maxContent, maxControlFrameBytes) && |content| <= maxContent
    ensures ProviderWire(maxContent) == WireBound(maxContent)
    ensures |Encode(content)| + 131072 <= maxControlFrameBytes
  {
    hide Encode;
    LengthFormulasAgree(maxContent);
    LengthGrows(|content|, maxContent);
  }
}
