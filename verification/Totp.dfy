/** One-time codes: base32 secrets (section 6 of RFC 4648) and time-based codes (RFC 4226 and RFC 6238). */
module Totp {
  import opened Basics
  import opened Texts

  type Bits = b: seq<int> | forall i :: 0 <= i < |b| ==> 0 <= b[i] <= 1

  // ----- groups of bits

  function Power(base: nat, n: nat): nat { if n == 0 then 1 else base * Power(base, n - 1) }

  /** `toString(2).padStart(width, "0")` of a number below two to the width. */
  function ToBits(n: nat, width: nat): (b: Bits)
    ensures |b| == width
  {
    if width == 0 then [] else ToBits(n / 2, width - 1) + [n % 2]
  }

  /** `parseInt(bits, 2)`. */
  function FromBits(b: Bits): (n: nat)
  {
    if b == [] then 0 else 2 * FromBits(b[..|b| - 1]) + b[|b| - 1]
  }

  lemma {:induction false} BitsReadBack(n: nat, width: nat)
    requires n < Power(2, width)
    ensures FromBits(ToBits(n, width)) == n
  {
    if width > 0 {
      BitsReadBack(n / 2, width - 1);
      assert ToBits(n, width)[..width - 1] == ToBits(n / 2, width - 1);
    }
  }

  lemma {:induction false} NumberWritesBack(b: Bits)
    ensures FromBits(b) < Power(2, |b|) && ToBits(FromBits(b), |b|) == b
  {
    if b != [] {
      NumberWritesBack(b[..|b| - 1]);
      assert b == b[..|b| - 1] + [b[|b| - 1]];
    }
  }

  /** All numbers' bits, one after the other. */
  function Spread(numbers: seq<nat>, width: nat): (b: Bits)
    ensures |b| == width * |numbers|
  {
    if numbers == [] then [] else Spread(numbers[..|numbers| - 1], width) + ToBits(numbers[|numbers| - 1], width)
  }

  /** The length of the full groups of `width` in `n`. */
  function Full(n: nat, width: nat): (full: nat)
    requires width > 0
    ensures full <= n < full + width
  {
    if n < width then 0 else width + Full(n - width, width)
  }

  /** The numbers of the full groups of `width` bits; a shorter rest is dropped. */
  function Grouped(b: Bits, width: nat): (numbers: seq<nat>)
    requires width > 0
    decreases |b|
  {
    if |b| < width then [] else [FromBits(b[..width])] + Grouped(b[width..], width)
  }

  lemma GroupedStep(b: Bits, i: nat, width: nat)
    requires width > 0 && i + width <= |b|
    ensures Grouped(b[i..], width) == [FromBits(b[i..i + width])] + Grouped(b[i + width..], width)
  {
    assert b[i..][..width] == b[i..i + width] && b[i..][width..] == b[i + width..];
  }

  /** Grouping and spreading again keeps all bits but the dropped rest. */
  lemma {:induction false} SpreadOfGrouped(b: Bits, width: nat)
    requires width > 0
    ensures Spread(Grouped(b, width), width) == b[..Full(|b|, width)]
    decreases |b|
  {
    hide FromBits, ToBits;
    if |b| >= width {
      var rest := b[width..];
      SpreadOfGrouped(rest, width);
      NumberWritesBack(b[..width]);
      SpreadFirst(FromBits(b[..width]), Grouped(rest, width), width);
      assert b[..width] + rest[..Full(|rest|, width)] == b[..width + Full(|rest|, width)];
    }
  }

  lemma {:induction false} SpreadFirst(n: nat, numbers: seq<nat>, width: nat)
    ensures Spread([n] + numbers, width) == ToBits(n, width) + Spread(numbers, width)
    decreases |numbers|
  {
    var all := [n] + numbers;
    if numbers == [] {
      assert all[..0] == [] && all == [n];
    } else {
      var last := |numbers| - 1;
      assert all[..|all| - 1] == [n] + numbers[..last];
      SpreadFirst(n, numbers[..last], width);
    }
  }

  /** Spreading and grouping again gives the numbers back. */
  lemma {:induction false} GroupedOfSpread(numbers: seq<nat>, width: nat)
    requires width > 0 && forall i :: 0 <= i < |numbers| ==> numbers[i] < Power(2, width)
    ensures Grouped(Spread(numbers, width), width) == numbers
    decreases |numbers|
  {
    if numbers != [] {
      var first, rest := numbers[0], numbers[1..];
      assert numbers == [first] + rest;
      SpreadFirst(first, rest, width);
      BitsReadBack(first, width);
      GroupedOfSpread(rest, width);
      var b := Spread(numbers, width);
      assert b[..width] == ToBits(first, width) && b[width..] == Spread(rest, width);
    }
  }

  // ----- base32

  const ALPHABET := "ABCDEFGHIJKLMNOPQRSTUVWXYZ234567"

  type Byte = n: nat | n < 256

  /** The bits of the bytes, in groups of five, as letters. */
  function Encode(bytes: seq<Byte>): string {
    Letters(Grouped(Spread(bytes, 8), 5))
  }

  function LetterOf(n: nat): char {
    if n < 26 then 'A' + n as char else if n < 32 then '2' + (n - 26) as char else '?'
  }

  lemma AlphabetIs(n: nat)
    requires n < 32
    ensures ALPHABET[n] == LetterOf(n)
  {
  }

  function Letters(indices: seq<nat>): (s: string)
    ensures |s| == |indices|
  {
    if indices == [] then "" else Letters(indices[..|indices| - 1]) + [LetterOf(indices[|indices| - 1])]
  }

  /** `alphabet.indexOf(c)`. */
  function IndexOf(c: char): (i: Option<nat>)
    ensures i.Some? ==> i.value < 32 && LetterOf(i.value) == c
    ensures i.None? ==> forall n: nat :: n < 32 ==> LetterOf(n) != c
  {
    if 'A' <= c <= 'Z' then Some((c - 'A') as nat) else if '2' <= c <= '7' then Some((c - '2') as nat + 26) else None
  }

  function StripEquals(s: string): string {
    if s != "" && s[|s| - 1] == '=' then StripEquals(s[..|s| - 1]) else s
  }

  function NoSpaces(s: string): string {
    if s == "" then "" else (if IsSpace(s[0]) then "" else [s[0]]) + NoSpaces(s[1..])
  }

  /**
   `toUpperCase` of one character: the ASCII letters, and the ten others whose upper case is ASCII letters only.  Every
   other character stays, or becomes a text with a character outside ASCII, and is foreign either way.
   */
  function Upper(c: char): string {
    match c
    case '\U{DF}' => "SS"
    case '\U{131}' => "I"
    case '\U{17F}' => "S"
    case '\U{FB00}' => "FF"
    case '\U{FB01}' => "FI"
    case '\U{FB02}' => "FL"
    case '\U{FB03}' => "FFI"
    case '\U{FB04}' => "FFL"
    case '\U{FB05}' => "ST"
    case '\U{FB06}' => "ST"
    case _ => if 'a' <= c <= 'z' then [c - 'a' + 'A'] else [c]
  }

  function Uppered(s: string): string {
    if s == "" then "" else Upper(s[0]) + Uppered(s[1..])
  }

  function Normalized(s: string): string { Uppered(NoSpaces(StripEquals(s))) }

  /** The indices of the letters; `None` if one is not in the alphabet. */
  function Indices(s: string): (r: Option<seq<nat>>)
    ensures r.Some? ==> |r.value| == |s| && forall i :: 0 <= i < |s| ==> r.value[i] < 32
  {
    if s == "" then Some([])
    else
      var before := Indices(s[..|s| - 1]);
      if before.Some? && IndexOf(s[|s| - 1]).Some? then Some(before.value + [IndexOf(s[|s| - 1]).value]) else None
  }

  /** The bytes of a base32 text; `None` is the error for a foreign character. */
  function Decode(s: string): Option<seq<nat>> {
    var indices := Indices(Normalized(s));
    if indices.Some? then Some(Grouped(Spread(indices.value, 5), 8)) else None
  }

  lemma {:induction false} GroupsAreSmall(b: Bits, width: nat)
    requires width > 0
    ensures forall i :: 0 <= i < |Grouped(b, width)| ==> Grouped(b, width)[i] < Power(2, width)
    decreases |b|
  {
    if |b| >= width {
      GroupsAreSmall(b[width..], width);
      NumberWritesBack(b[..width]);
    }
  }

  lemma PowersOfTwo()
    ensures Power(2, 5) == 32 && Power(2, 8) == 256
  {
    assert Power(2, 2) == 4 && Power(2, 4) == 16;
    assert Power(2, 6) == 64;
  }

  lemma {:induction false} LettersReadBack(indices: seq<nat>)
    requires forall i :: 0 <= i < |indices| ==> indices[i] < 32
    ensures Indices(Letters(indices)) == Some(indices)
    decreases |indices|
  {
    hide LetterOf;
    if indices != [] {
      var n := |indices| - 1;
      LettersReadBack(indices[..n]);
      assert Letters(indices)[..n] == Letters(indices[..n]);
      LetterReadsBack(indices[n]);
      assert indices[..n] + [indices[n]] == indices;
    }
  }

  lemma LetterReadsBack(n: nat)
    requires n < 32
    ensures IndexOf(LetterOf(n)) == Some(n)
    ensures !IsSpace(LetterOf(n)) && Upper(LetterOf(n)) == [LetterOf(n)] && LetterOf(n) != '='
  {
  }

  lemma {:induction false} NoSpacesApart(a: string, b: string)
    ensures NoSpaces(a + b) == NoSpaces(a) + NoSpaces(b)
    decreases |a|
  {
    hide IsSpace;
    if a == "" {
      assert a + b == b;
    } else {
      assert (a + b)[1..] == a[1..] + b;
      NoSpacesApart(a[1..], b);
    }
  }

  lemma {:induction false} UpperedApart(a: string, b: string)
    ensures Uppered(a + b) == Uppered(a) + Uppered(b)
    decreases |a|
  {
    hide Upper;
    if a == "" {
      assert a + b == b;
    } else {
      assert (a + b)[1..] == a[1..] + b;
      UpperedApart(a[1..], b);
    }
  }

  lemma OneLetter(c: char)
    ensures NoSpaces([c]) == (if IsSpace(c) then "" else [c]) && Uppered([c]) == Upper(c)
  {
  }

  /** Encoded text is already in the form that decoding brings its input to. */
  lemma {:induction false} LettersAreNormal(indices: seq<nat>)
    requires forall i :: 0 <= i < |indices| ==> indices[i] < 32
    ensures NoSpaces(Letters(indices)) == Letters(indices) && Uppered(Letters(indices)) == Letters(indices)
    ensures StripEquals(Letters(indices)) == Letters(indices)
    decreases |indices|
  {
    hide LetterOf, IsSpace, Upper;
    if indices != [] {
      var n := |indices| - 1;
      LettersAreNormal(indices[..n]);
      LetterReadsBack(indices[n]);
      NoSpacesApart(Letters(indices[..n]), [LetterOf(indices[n])]);
      UpperedApart(Letters(indices[..n]), [LetterOf(indices[n])]);
      OneLetter(LetterOf(indices[n]));
    }
  }

  /** Decoding what was encoded keeps the bits that fill whole letters and then whole bytes. */
  lemma DecodeOfEncode(bytes: seq<Byte>)
    ensures var b := Spread(bytes, 8);
            Decode(Encode(bytes)) == Some(Grouped(b[..Full(|b|, 5)], 8))
  {
    hide Grouped, Spread, Letters, Indices, Full;
    var b := Spread(bytes, 8);
    var indices := Grouped(b, 5);
    GroupsAreSmall(b, 5);
    PowersOfTwo();
    LettersAreNormal(indices);
    LettersReadBack(indices);
    SpreadOfGrouped(b, 5);
  }

  lemma {:induction false} FullOfFive(n: nat)
    ensures Full(n, 5) == n - n % 5
  {
    if n >= 5 { FullOfFive(n - 5); }
  }

  lemma {:induction false} BytesOf(b: Bits)
    ensures 8 * |Grouped(b, 8)| <= |b|
    decreases |b|
  {
    if |b| >= 8 { BytesOf(b[8..]); }
  }

  /** Bytes survive encoding and decoding exactly when there is a multiple of five of them, as in a 20-byte secret. */
  lemma RoundTripExactlyWhen(bytes: seq<Byte>)
    ensures Decode(Encode(bytes)) == Some(bytes) <==> |bytes| % 5 == 0
  {
    hide Grouped, Spread, Decode, Encode, Power;
    var b := Spread(bytes, 8);
    assert |b| == 8 * |bytes| by { SpreadLength(bytes); }
    DecodeOfEncode(bytes);
    FullOfFive(|b|);
    BytesOf(b[..Full(|b|, 5)]);
    if |bytes| % 5 == 0 {
      assert b[..|b|] == b;
      PowersOfTwo();
      GroupedOfSpread(bytes, 8);
    }
  }

  lemma SpreadLength(numbers: seq<nat>)
    ensures |Spread(numbers, 8)| == 8 * |numbers|
  {
  }

  /** Padding at the end does not change what is decoded. */
  lemma {:induction false} PaddingIsIgnored(s: string, n: nat)
    ensures Decode(s + seq(n, _ => '=')) == Decode(s)
    decreases n
  {
    hide Decode;
    var padded := s + seq(n, _ => '=');
    if n == 0 {
      assert padded == s;
    } else {
      PaddingIsIgnored(s, n - 1);
      OnePadIsIgnored(s + seq(n - 1, _ => '='));
      assert padded == s + seq(n - 1, _ => '=') + ['='];
    }
  }

  lemma OnePadIsIgnored(s: string)
    ensures Decode(s + ['=']) == Decode(s)
  {
    assert (s + ['='])[..|s|] == s;
  }

  function Lowered(s: string): string {
    if s == "" then "" else [if 'A' <= s[0] <= 'Z' then s[0] - 'A' + 'a' else s[0]] + Lowered(s[1..])
  }

  lemma {:induction false} LoweredLast(s: string, c: char)
    ensures |Lowered(s)| == |s| && Lowered(s + [c]) == Lowered(s) + Lowered([c])
    decreases |s|
  {
    if s == "" {
      assert s + [c] == [c];
    } else {
      assert (s + [c])[1..] == s[1..] + [c];
      LoweredLast(s[1..], c);
    }
  }

  lemma {:induction false} StripOfLowered(s: string)
    ensures StripEquals(Lowered(s)) == Lowered(StripEquals(s))
    decreases |s|
  {
    if s != "" {
      var n := |s| - 1;
      LoweredLast(s[..n], s[n]);
      assert s == s[..n] + [s[n]] && Lowered(s)[..n] == Lowered(s[..n]);
      StripOfLowered(s[..n]);
    }
  }

  lemma {:induction false} UpperOfLowered(s: string)
    ensures Uppered(NoSpaces(Lowered(s))) == Uppered(NoSpaces(s))
    decreases |s|
  {
    if s != "" {
      var c := Lowered(s)[0];
      UpperOfLowered(s[1..]);
      if 'A' <= s[0] <= 'Z' { LowerLetter(s[0]); }
      hide Upper, IsSpace;
      assert Lowered(s)[1..] == Lowered(s[1..]);
      UpperedApart(if IsSpace(c) then "" else [c], NoSpaces(Lowered(s[1..])));
      UpperedApart(if IsSpace(s[0]) then "" else [s[0]], NoSpaces(s[1..]));
      OneLetter(c);
      OneLetter(s[0]);
    }
  }

  lemma LowerLetter(c: char)
    requires 'A' <= c <= 'Z'
    ensures Upper(c - 'A' + 'a') == Upper(c) == [c] && !IsSpace(c - 'A' + 'a') && !IsSpace(c)
  {
  }

  /** A secret may be typed in lower case. */
  lemma CaseIsIgnored(s: string)
    ensures Decode(Lowered(s)) == Decode(s)
  {
    hide *;
    StripOfLowered(s);
    UpperOfLowered(StripEquals(s));
    NormalizedDecides(Lowered(s), s);
  }

  lemma NormalizedDecides(a: string, b: string)
    ensures Uppered(NoSpaces(StripEquals(a))) == Uppered(NoSpaces(StripEquals(b))) ==> Decode(a) == Decode(b)
  {
  }

  /** And with spaces, such as between groups of letters. */
  lemma SpacesAreIgnored(a: string, space: char, b: string)
    requires IsSpace(space) && b != "" && b[|b| - 1] != '='
    ensures Decode(a + [space] + b) == Decode(a + b)
  {
    hide IsSpace, NoSpaces, Decode;
    NoSpacesApart(a + [space], b);
    NoSpacesApart(a, [space]);
    OneLetter(space);
    NoSpacesApart(a, b);
    assert (a + [space] + b)[|a| + |b|] == b[|b| - 1] == (a + b)[|a| + |b| - 1];
    assert NoSpaces(a) + NoSpaces([space]) == NoSpaces(a);
    NormalizedDecides(a + [space] + b, a + b);
  }

  method CreateTotpSecret(bytes: seq<Byte>) returns (output: string)
    ensures output == Encode(bytes)
  {
    hide ToBits, FromBits, Grouped, LetterOf, Power;
    var bits: Bits := [];
    for i := 0 to |bytes|
      invariant bits == Spread(bytes[..i], 8)
    {
      assert bytes[..i + 1][..i] == bytes[..i];
      bits := bits + ToBits(bytes[i], 8);
    }
    assert bytes[..|bytes|] == bytes;
    output := "";
    var index := 0;
    ghost var done: seq<nat> := [];
    assert bits[0..] == bits;
    while index + 5 <= |bits|
      invariant index <= |bits|
      invariant output == Letters(done) && done + Grouped(bits[index..], 5) == Grouped(bits, 5)
    {
      var group := FromBits(bits[index..index + 5]);
      NumberWritesBack(bits[index..index + 5]);
      PowersOfTwo();
      AlphabetIs(group);
      GroupedStep(bits, index, 5);
      done := done + [group];
      assert done[..|done| - 1] + [group] == done;
      output := output + [ALPHABET[group]];
      index := index + 5;
    }
    NoGroups(bits[index..], 5);
    assert done + [] == done;
  }

  lemma NoGroups(b: Bits, width: nat)
    requires |b| < width
    ensures Grouped(b, width) == []
  {
  }

  method DecodeBase32(value: string) returns (bytes: Option<seq<nat>>)
    ensures bytes == Decode(value)
  {
    hide ToBits, FromBits, Grouped, LetterOf, IndexOf, Normalized;
    var normalized := Normalized(value);
    var bits: Bits := [];
    ghost var indices: seq<nat> := [];
    for i := 0 to |normalized|
      invariant Indices(normalized[..i]) == Some(indices) && bits == Spread(indices, 5)
    {
      assert normalized[..i + 1][..i] == normalized[..i];
      var index := IndexOf(normalized[i]);
      if index.None? {
        ForeignFails(normalized, i + 1);
        return None;
      }
      assert (indices + [index.value])[..|indices|] == indices;
      indices := indices + [index.value];
      bits := bits + ToBits(index.value, 5);
    }
    assert normalized[..|normalized|] == normalized;
    var numbers := GroupBytes(bits);
    bytes := Some(numbers);
  }

  /** The second loop of decoding. */
  method GroupBytes(bits: Bits) returns (numbers: seq<nat>)
    ensures numbers == Grouped(bits, 8)
  {
    hide FromBits, Grouped;
    numbers := [];
    var index := 0;
    assert bits[0..] == bits;
    while index + 8 <= |bits|
      invariant index <= |bits|
      invariant numbers + Grouped(bits[index..], 8) == Grouped(bits, 8)
    {
      GroupedStep(bits, index, 8);
      numbers := numbers + [FromBits(bits[index..index + 8])];
      index := index + 8;
    }
    NoGroups(bits[index..], 8);
  }

  lemma {:induction false} ForeignFails(s: string, n: nat)
    requires n <= |s| && Indices(s[..n]).None?
    ensures Indices(s).None?
    decreases |s|
  {
    if n < |s| {
      assert s[..|s| - 1][..n] == s[..n];
      ForeignFails(s[..|s| - 1], n);
    } else {
      assert s[..n] == s;
    }
  }

  // ----- codes

  /** `padStart(digits, "0")`. */
  function Padded(s: string, digits: nat): string {
    if |s| >= digits then s else seq(digits - |s|, _ => '0') + s
  }

  /** The dynamic truncation of section 5.3 of RFC 4226: 31 bits at an offset the last byte gives. */
  function Truncated(digest: seq<Byte>): (n: nat)
    requires |digest| == 20
    ensures n < 0x8000_0000
  {
    var offset := digest[19] % 16;
    (digest[offset] as int % 128) * 0x100_0000 + digest[offset + 1] as int * 0x1_0000
    + digest[offset + 2] as int * 0x100 + digest[offset + 3] as int
  }

  /** The bytes of the truncated number, the sign bit of the first left out. */
  lemma TruncatedBytes(digest: seq<Byte>)
    requires |digest| == 20
    ensures var n, offset := Truncated(digest), digest[19] % 16;
            && n / 0x100_0000 == digest[offset] % 128 && n / 0x1_0000 % 256 == digest[offset + 1]
            && n / 0x100 % 256 == digest[offset + 2] && n % 256 == digest[offset + 3]
  {
    var o := digest[19] % 16;
    FourBytes(digest[o] as int % 128, digest[o + 1] as int, digest[o + 2] as int, digest[o + 3] as int);
  }

  lemma FourBytes(a: int, b: int, c: int, d: int)
    requires 0 <= a < 128 && 0 <= b < 256 && 0 <= c < 256 && 0 <= d < 256
    ensures var n := a * 0x100_0000 + b * 0x1_0000 + c * 0x100 + d;
            n / 0x100_0000 == a && n / 0x1_0000 % 256 == b && n / 0x100 % 256 == c && n % 256 == d
  {
    var n := a * 0x100_0000 + b * 0x1_0000 + c * 0x100 + d;
    QuotientIs(n, 0x100_0000, a, b * 0x1_0000 + c * 0x100 + d);
    QuotientIs(n, 0x1_0000, a * 0x100 + b, c * 0x100 + d);
    QuotientIs(n, 0x100, a * 0x1_0000 + b * 0x100 + c, d);
    LastByte(a, b);
    LastByte(a * 0x100 + b, c);
    LastByte(a * 0x1_0000 + b * 0x100 + c, d);
  }

  lemma LastByte(q: int, r: int)
    requires 0 <= r < 256
    ensures (q * 0x100 + r) % 256 == r
  {
  }

  /** The example of section 5.4 of RFC 4226. */
  lemma TruncationExample()
    ensures Truncated([0x1f, 0x86, 0x98, 0x69, 0x0e, 0x02, 0xca, 0x16, 0x61, 0x85,
                       0x50, 0xef, 0x7f, 0x19, 0xda, 0x8e, 0x94, 0x5b, 0x55, 0x5a]) == 0x50ef7f19
  {
  }

  function CodeOf(digest: seq<Byte>, digits: nat): string
    requires |digest| == 20
  {
    PowerIsPositive(10, digits);
    Padded(Decimal(Truncated(digest) % Power(10, digits)), digits)
  }

  lemma {:induction false} PowerIsPositive(base: nat, n: nat)
    requires base > 0
    ensures Power(base, n) > 0
  {
    if n > 0 { PowerIsPositive(base, n - 1); }
  }

  lemma {:induction false} DecimalIsShort(n: nat, digits: nat)
    requires n < Power(10, digits) && digits >= 1
    ensures |Decimal(n)| <= digits
  {
    TenToTheOne();
    if n >= 10 { DecimalIsShort(n / 10, digits - 1); }
  }

  lemma TenToTheOne()
    ensures Power(10, 1) == 10
  {
    assert Power(10, 0) == 1;
  }

  lemma {:induction false} PaddingKeepsTheNumber(s: string, n: nat)
    requires AllDigits(s)
    ensures AllDigits(seq(n, _ => '0') + s) && Number(seq(n, _ => '0') + s) == Number(s)
    decreases n + |s|
  {
    var padded := seq(n, _ => '0') + s;
    if s != "" {
      PaddingKeepsTheNumber(s[..|s| - 1], n);
      assert padded[..|padded| - 1] == seq(n, _ => '0') + s[..|s| - 1];
    } else if n > 0 {
      PaddingKeepsTheNumber("", n - 1);
      assert padded[..|padded| - 1] == seq(n - 1, _ => '0') + "";
    }
  }

  /** A code has exactly the digits asked for, and they are the truncated number's last ones. */
  lemma CodeHasExactlyTheDigits(digest: seq<Byte>, digits: nat)
    requires |digest| == 20 && digits >= 1
    ensures var code := CodeOf(digest, digits);
            |code| == digits && AllDigits(code)
            && Number(code) == Truncated(digest) % (PowerIsPositive(10, digits); Power(10, digits))
  {
    PowerIsPositive(10, digits);
    var n := Truncated(digest) % Power(10, digits);
    DecimalReadsBack(n);
    DecimalIsShort(n, digits);
    PaddingKeepsTheNumber(Decimal(n), digits - |Decimal(n)|);
    if |Decimal(n)| == digits { assert seq(0, _ => '0') + Decimal(n) == Decimal(n); }
  }

  /** Asking for no digits still gives one. */
  lemma NoDigitsGivesOne(digest: seq<Byte>)
    requires |digest| == 20
    ensures CodeOf(digest, 0) == "0"
  {
    assert Power(10, 0) == 1;
  }

  // ----- verification

  datatype Verdict = Accepted | Rejected | Threw
  datatype Setting = Setting(digits: nat, periodSeconds: nat, window: int)

  /** The keyed hash of a counter, a digest of 20 bytes. */
  type Hmac = h: (seq<nat>, nat) -> seq<Byte> | forall key, counter :: |h(key, counter)| == 20
    ghost witness (key: seq<nat>, counter: nat) => seq(20, _ => 0)

  const COUNTER_LIMIT := 0x1_0000_0000_0000_0000

  function Counter(timestamp: int, periodSeconds: nat): int
    requires periodSeconds > 0
  {
    timestamp / (1000 * periodSeconds)
  }

  /** The code of a counter; `None` is the error for a bad secret or a counter that is no 64-bit number. */
  function CodeAt(hmac: Hmac, secret: string, digits: nat, counter: int): Option<string> {
    var key := Decode(secret);
    if key.None? || counter < 0 || counter >= COUNTER_LIMIT then None
    else Some(CodeOf(hmac(key.value, counter), digits))
  }

  /** There is a code for every secret in base32 and every counter that is an unsigned 64-bit number. */
  lemma CodeThrowsExactlyWhen(hmac: Hmac, secret: string, digits: nat, counter: int)
    ensures CodeAt(hmac, secret, digits, counter) == None <==>
            Decode(secret) == None || !(0 <= counter <= 0xFFFF_FFFF_FFFF_FFFF)
  {
  }

  /** `createTotpCode` at a time in milliseconds. */
  function TotpCode(hmac: Hmac, secret: string, digits: nat, periodSeconds: nat, timestamp: int): Option<string>
    requires periodSeconds > 0
  {
    CodeAt(hmac, secret, digits, Counter(timestamp, periodSeconds))
  }

  predicate WellFormed(code: string, digits: nat) { |code| == digits && AllDigits(code) }

  /** What the attempts from `offset` on come to. */
  function VerdictFrom(hmac: Hmac, secret: string, code: string, s: Setting, counter: int, offset: int): Verdict
    decreases s.window - offset
  {
    if offset > s.window then Rejected
    else
      match CodeAt(hmac, secret, s.digits, counter + offset)
      case None => Threw
      case Some(expected) =>
        if expected == code then Accepted
        else VerdictFrom(hmac, secret, code, s, counter, offset + 1)
  }

  function Verdicts(hmac: Hmac, secret: string, code: string, s: Setting, timestamp: int): Verdict
    requires s.periodSeconds > 0
  {
    if !WellFormed(NoSpaces(code), s.digits) then Rejected
    else VerdictFrom(hmac, secret, NoSpaces(code), s, Counter(timestamp, s.periodSeconds), -s.window)
  }

  /** Moving the time by whole periods moves the counter by as many. */
  lemma CounterMoves(timestamp: int, periodSeconds: nat, offset: int)
    requires periodSeconds > 0
    ensures Counter(timestamp + offset * periodSeconds * 1000, periodSeconds)
            == Counter(timestamp, periodSeconds) + offset
  {
    var p := 1000 * periodSeconds;
    assert offset * periodSeconds * 1000 == offset * p;
    DivisionMoves(timestamp, p, offset);
  }

  lemma DivisionMoves(n: int, p: int, k: int)
    requires p > 0
    ensures (n + k * p) / p == n / p + k
  {
    var q, r := n / p, n % p;
    assert n + k * p == (q + k) * p + r;
    QuotientIs((q + k) * p + r, p, q + k, r);
  }

  lemma QuotientIs(n: int, p: int, q: int, r: int)
    requires p > 0 && 0 <= r < p && n == q * p + r
    ensures n / p == q
  {
    var d := n / p - q;
    assert d * p == r - n % p;
    if d >= 1 { Multiples(p, 1, d); }
    if d <= -1 { Multiples(p, d, -1); }
  }

  method VerifyTotpCode(hmac: Hmac, secret: string, code: string, s: Setting, timestamp: int) returns (verdict: Verdict)
    requires s.periodSeconds > 0
    ensures verdict == Verdicts(hmac, secret, code, s, timestamp)
  {
    hide Counter, CodeAt, AllDigits;
    var normalizedCode := NoSpaces(code);
    if |normalizedCode| != s.digits || !AllDigits(normalizedCode) {
      return Rejected;
    }
    var offset := -s.window;
    while offset <= s.window
      invariant VerdictFrom(hmac, secret, normalizedCode, s, Counter(timestamp, s.periodSeconds), offset)
                == Verdicts(hmac, secret, code, s, timestamp)
      decreases s.window - offset
    {
      CounterMoves(timestamp, s.periodSeconds, offset);
      var expected := TotpCode(hmac, secret, s.digits, s.periodSeconds, timestamp + offset * s.periodSeconds * 1000);
      if expected.None? {
        return Threw;
      }
      if expected.value == normalizedCode {
        return Accepted;
      }
      offset := offset + 1;
    }
    verdict := Rejected;
  }

  /** Some counter within the window has this code. */
  ghost predicate Matches(hmac: Hmac, secret: string, code: string, s: Setting, counter: int, from: int) {
    exists c :: from <= c <= counter + s.window && CodeAt(hmac, secret, s.digits, c) == Some(code)
  }

  lemma {:induction false} VerdictFromExactly(hmac: Hmac, secret: string, code: string, s: Setting, counter: int,
      offset: int)
    requires Decode(secret).Some? && 0 <= counter + offset && counter + s.window < COUNTER_LIMIT
    ensures VerdictFrom(hmac, secret, code, s, counter, offset)
            == if Matches(hmac, secret, code, s, counter, counter + offset) then Accepted else Rejected
    decreases s.window - offset
  {
    hide CodeOf, Decode;
    if offset <= s.window {
      VerdictFromExactly(hmac, secret, code, s, counter, offset + 1);
      if Matches(hmac, secret, code, s, counter, counter + offset)
         && CodeAt(hmac, secret, s.digits, counter + offset) != Some(code)
      {
        var c :| counter + offset <= c <= counter + s.window && CodeAt(hmac, secret, s.digits, c) == Some(code);
        assert counter + (offset + 1) <= c;
      }
    }
  }

  /**
   Verification accepts exactly the well-formed codes of the counters within the window around the present one
   (sections 4 and 5.2 of RFC 6238); near the epoch, where the window would reach below zero, it throws instead.
   */
  lemma VerifiesExactly(hmac: Hmac, secret: string, code: string, s: Setting, timestamp: int)
    requires s.periodSeconds > 0 && s.window >= 0 && Counter(timestamp, s.periodSeconds) + s.window < COUNTER_LIMIT
    ensures var counter, plain := Counter(timestamp, s.periodSeconds), NoSpaces(code);
            Verdicts(hmac, secret, code, s, timestamp) ==
              if !WellFormed(plain, s.digits) then Rejected
              else if Decode(secret).None? || counter < s.window then Threw
              else if Matches(hmac, secret, plain, s, counter, counter - s.window) then Accepted
              else Rejected
  {
    hide CodeOf, Decode, WellFormed, Counter;
    var counter, plain := Counter(timestamp, s.periodSeconds), NoSpaces(code);
    if Decode(secret).Some? && counter >= s.window {
      VerdictFromExactly(hmac, secret, plain, s, counter, -s.window);
    }
  }

  /** Times within the window are no more counters apart than it is wide. */
  lemma CountersNearby(t: int, u: int, periodSeconds: nat, window: int)
    requires periodSeconds > 0 && window >= 0
    requires -(window * (1000 * periodSeconds)) <= u - t <= window * (1000 * periodSeconds)
    ensures Counter(u, periodSeconds) - window <= Counter(t, periodSeconds) <= Counter(u, periodSeconds) + window
  {
    var p := 1000 * periodSeconds;
    DivisionMoves(u, p, window);
    DivisionMoves(u, p, -window);
    Monotone(t, u + window * p, p);
    Monotone(u + -window * p, t, p);
  }

  lemma Monotone(a: int, b: int, p: int)
    requires p > 0 && a <= b
    ensures a / p <= b / p
  {
    if a / p > b / p { Multiples(p, b / p + 1, a / p); }
  }

  lemma {:induction false} DigitsHaveNoSpaces(s: string)
    requires AllDigits(s)
    ensures NoSpaces(s) == s
  {
    hide IsSpace;
    if s != "" {
      assert forall i :: 0 <= i < |s| - 1 ==> s[1..][i] == s[i + 1];
      DigitsHaveNoSpaces(s[1..]);
      DigitIsNoSpace(s[0]);
    }
  }

  /** A code made at one time is accepted at every other time at most the window's length away. */
  lemma CodeIsAcceptedNearby(hmac: Hmac, secret: string, s: Setting, made: int, used: int)
    requires s.periodSeconds > 0 && s.digits >= 1 && 0 <= s.window
    requires TotpCode(hmac, secret, s.digits, s.periodSeconds, made).Some?
    requires -(s.window * (1000 * s.periodSeconds)) <= used - made <= s.window * (1000 * s.periodSeconds)
    requires s.window <= Counter(used, s.periodSeconds) < COUNTER_LIMIT - s.window
    ensures Verdicts(hmac, secret, TotpCode(hmac, secret, s.digits, s.periodSeconds, made).value, s, used) == Accepted
  {
    hide CodeOf, Decode, Counter;
    var counter := Counter(made, s.periodSeconds);
    var code := TotpCode(hmac, secret, s.digits, s.periodSeconds, made).value;
    var key := Decode(secret).value;
    CodeHasExactlyTheDigits(hmac(key, counter), s.digits);
    DigitsHaveNoSpaces(code);
    CountersNearby(made, used, s.periodSeconds, s.window);
    VerifiesExactly(hmac, secret, code, s, used);
    assert CodeAt(hmac, secret, s.digits, counter) == Some(code);
  }
}
