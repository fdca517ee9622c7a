/** Masking of `user:password` in the connection strings of a log text. */
module Redaction {
  predicate IsSchemeCharacter(c: char) {
    '0' <= c <= '9' || 'A' <= c <= 'Z' || 'a' <= c <= 'z' || c == '+' || c == '-' || c == '.'
  }

  predicate IsAsciiLetter(c: char) {
    'A' <= c <= 'Z' || 'a' <= c <= 'z'
  }

  predicate IsAuthorityBoundary(c: char) {
    c == '/' || c == '?' || c == '#' || c == ' ' || c == '\t' || c == '\n' || c == '\r'
  }

  const CAPITALS := "ABCDEFGHIJKLMNOPQRSTUVWXYZ"
  const SMALL := "abcdefghijklmnopqrstuvwxyz"
  const BOUNDARIES := "/?# \t\n\r"

  lemma LetterAt(i: nat)
    requires i < 26
    ensures CAPITALS[i] == 'A' + i as char && SMALL[i] == 'a' + i as char
  {
  }

  lemma Letters(c: char)
    ensures IsAsciiLetter(c) <==> c in CAPITALS || c in SMALL
  {
    assert |CAPITALS| == |SMALL| == 26;
    hide CAPITALS, SMALL;
    if i :| 0 <= i < |CAPITALS| && CAPITALS[i] == c { LetterAt(i); }
    if i :| 0 <= i < |SMALL| && SMALL[i] == c { LetterAt(i); }
    if 'A' <= c <= 'Z' { LetterAt((c - 'A') as int); }
    if 'a' <= c <= 'z' { LetterAt((c - 'a') as int); }
  }

  lemma SchemeCharacters(c: char)
    ensures IsSchemeCharacter(c) <==> c in CAPITALS || c in SMALL || c in "0123456789+-."
  {
    Letters(c);
    hide CAPITALS, SMALL;
    if '0' <= c <= '9' { assert "0123456789+-."[(c - '0') as int] == c; }
  }

  lemma Boundaries(c: char)
    ensures IsAuthorityBoundary(c) <==> c in BOUNDARIES
  {
  }

  // ----- searching

  predicate SeparatorAt(s: string, i: int) {
    0 <= i && i + 3 <= |s| && s[i] == ':' && s[i + 1] == '/' && s[i + 2] == '/'
  }

  /** `indexOf("://", from)`. */
  function FindSeparator(s: string, from: nat): (i: int)
    requires from <= |s|
    ensures i == -1 || from <= i <= |s| - 3
    decreases |s| - from
  {
    if SeparatorAt(s, from) then from else if from == |s| then -1 else FindSeparator(s, from + 1)
  }

  /** `indexOf(c)`. */
  function FirstOf(s: string, c: char): (i: int)
    ensures -1 <= i < |s|
  {
    if s == "" then -1 else if s[0] == c then 0 else var i := FirstOf(s[1..], c); if i == -1 then -1 else i + 1
  }

  /** `lastIndexOf(c)`. */
  function LastOf(s: string, c: char): (i: int)
    ensures -1 <= i < |s|
  {
    if s == "" then -1 else if s[|s| - 1] == c then |s| - 1 else LastOf(s[..|s| - 1], c)
  }

  /** Where the run of scheme characters that ends before `i` begins, looking no further back than `start`. */
  function SchemeStart(s: string, start: nat, i: nat): (scheme: nat)
    requires start <= i <= |s|
    ensures start <= scheme <= i
    decreases i
  {
    if i > start && IsSchemeCharacter(s[i - 1]) then SchemeStart(s, start, i - 1) else i
  }

  /** The end of the authority that begins at `i`. */
  function AuthorityEnd(s: string, i: nat): (end: nat)
    requires i <= |s|
    ensures i <= end <= |s|
    decreases |s| - i
  {
    if i < |s| && !IsAuthorityBoundary(s[i]) then AuthorityEnd(s, i + 1) else i
  }

  /** The run of scheme characters before a separator begins with a letter. */
  predicate Opens(s: string, start: nat, separator: nat)
    requires start <= separator < |s|
  {
    IsAsciiLetter(s[SchemeStart(s, start, separator)])
  }

  lemma {:induction false} FirstSeparator(s: string, from: nat)
    requires from <= |s|
    ensures FindSeparator(s, from) != -1 ==> SeparatorAt(s, FindSeparator(s, from))
    ensures forall j :: from <= j && (FindSeparator(s, from) == -1 || j < FindSeparator(s, from)) ==> !SeparatorAt(s, j)
    decreases |s| - from
  {
    if !SeparatorAt(s, from) && from < |s| { FirstSeparator(s, from + 1); }
  }

  lemma {:induction false} FirstOfIs(s: string, c: char, i: nat)
    requires i < |s| && s[i] == c && c !in s[..i]
    ensures FirstOf(s, c) == i
  {
    if i > 0 {
      assert s[0] == s[..i][0] && s[1..][..i - 1] == s[..i][1..];
      FirstOfIs(s[1..], c, i - 1);
    }
  }

  lemma {:induction false} FirstOfFinds(s: string, c: char)
    ensures var i := FirstOf(s, c); if i == -1 then c !in s else s[i] == c && c !in s[..i]
  {
    if s != "" && s[0] != c {
      FirstOfFinds(s[1..], c);
      assert s == [s[0]] + s[1..];
      var i := FirstOf(s[1..], c);
      if i != -1 { assert s[..i + 1] == [s[0]] + s[1..][..i]; }
    }
  }

  lemma {:induction false} LastOfIs(s: string, c: char, i: nat)
    requires i < |s| && s[i] == c && c !in s[i + 1..]
    ensures LastOf(s, c) == i
  {
    if i < |s| - 1 {
      assert s[|s| - 1] == s[i + 1..][|s| - i - 2] && s[..|s| - 1][i + 1..] == s[i + 1..][..|s| - i - 2];
      LastOfIs(s[..|s| - 1], c, i);
    }
  }

  lemma {:induction false} LastOfFinds(s: string, c: char)
    ensures var i := LastOf(s, c); if i == -1 then c !in s else s[i] == c && c !in s[i + 1..]
  {
    if s != "" && s[|s| - 1] != c {
      var n := |s| - 1;
      LastOfFinds(s[..n], c);
      assert s == s[..n] + [s[n]];
      var i := LastOf(s[..n], c);
      if i != -1 { assert s[i + 1..] == s[..n][i + 1..] + [s[n]]; }
    }
  }

  lemma {:induction false} SchemeStartIs(s: string, start: nat, i: nat, scheme: nat)
    requires start <= scheme <= i <= |s| && forall j :: scheme <= j < i ==> IsSchemeCharacter(s[j])
    requires scheme == start || !IsSchemeCharacter(s[scheme - 1])
    ensures SchemeStart(s, start, i) == scheme
    decreases i
  {
    if scheme < i { SchemeStartIs(s, start, i - 1, scheme); }
  }

  lemma {:induction false} AuthorityEndIs(s: string, i: nat, end: nat)
    requires i <= end <= |s| && forall j :: i <= j < end ==> !IsAuthorityBoundary(s[j])
    requires end == |s| || IsAuthorityBoundary(s[end])
    ensures AuthorityEnd(s, i) == end
    decreases end - i
  {
    if i < end { AuthorityEndIs(s, i + 1, end); }
  }

  lemma {:induction false} AuthorityHasNoBoundary(s: string, i: nat)
    requires i <= |s|
    ensures var end := AuthorityEnd(s, i);
            (forall j :: i <= j < end ==> !IsAuthorityBoundary(s[j])) && (end == |s| || IsAuthorityBoundary(s[end]))
    decreases |s| - i
  {
    if i < |s| && !IsAuthorityBoundary(s[i]) { AuthorityHasNoBoundary(s, i + 1); }
  }

  // ----- masking

  const HIDDEN := "[REDACTED]"
  const MASK := "[REDACTED]:[REDACTED]@"

  function MaskBefore(host: string): string { MASK + host }

  function Mask(authority: string): string {
    if FirstOf(authority, ':') >= 1 && LastOf(authority, '@') > FirstOf(authority, ':') + 1
    then MaskBefore(authority[LastOf(authority, '@') + 1..])
    else authority
  }

  /** `user:password@host`, read with the first colon and the last at-sign. */
  ghost predicate Splits(authority: string, user: string, password: string, host: string) {
    authority == user + ":" + password + "@" + host
    && user != "" && password != "" && ':' !in user && '@' !in host
  }

  lemma SplitsOnce(authority: string, user: string, password: string, host: string)
    requires Splits(authority, user, password, host)
    ensures var i, j := FirstOf(authority, ':'), LastOf(authority, '@');
            1 <= i && i + 1 < j
            && user == authority[..i] && password == authority[i + 1..j] && host == authority[j + 1..]
  {
    var i, j := |user|, |user| + 1 + |password|;
    assert authority[..i] == user && authority[i + 1..j] == password && authority[j + 1..] == host;
    FirstOfIs(authority, ':', i);
    LastOfIs(authority, '@', j);
  }

  /** Masking keeps the host and nothing of the user and the password. */
  lemma MaskKeepsTheHost(authority: string, user: string, password: string, host: string)
    requires Splits(authority, user, password, host)
    ensures Mask(authority) == MASK + host
  {
    SplitsOnce(authority, user, password, host);
  }

  /** What it changes has a user and a password; every other authority it leaves alone. */
  lemma MaskOnlyCredentials(authority: string) returns (user: string, password: string, host: string)
    requires Mask(authority) != authority
    ensures Splits(authority, user, password, host)
  {
    var i, j := FirstOf(authority, ':'), LastOf(authority, '@');
    FirstOfFinds(authority, ':');
    LastOfFinds(authority, '@');
    SplitsAt(authority, i, j);
    user, password, host := authority[..i], authority[i + 1..j], authority[j + 1..];
  }

  lemma SplitsAt(authority: string, i: nat, j: nat)
    requires 1 <= i && i + 1 < j < |authority| && authority[i] == ':' && authority[j] == '@'
    requires ':' !in authority[..i] && '@' !in authority[j + 1..]
    ensures Splits(authority, authority[..i], authority[i + 1..j], authority[j + 1..])
  {
    Reassembled(authority, i, j);
  }

  lemma Reassembled(s: string, i: nat, j: nat)
    requires i < j < |s|
    ensures s == s[..i] + [s[i]] + s[i + 1..j] + [s[j]] + s[j + 1..]
  {
  }

  lemma MaskSplits(host: string)
    requires '@' !in host
    ensures Splits(MASK + host, HIDDEN, HIDDEN, host)
  {
    assert MASK == HIDDEN + ":" + HIDDEN + "@";
  }

  lemma MaskTwice(authority: string)
    ensures Mask(Mask(authority)) == Mask(authority)
  {
    if Mask(authority) != authority {
      var host := authority[LastOf(authority, '@') + 1..];
      LastOfFinds(authority, '@');
      MaskSplits(host);
      MaskKeepsTheHost(MASK + host, HIDDEN, HIDDEN, host);
    }
  }

  predicate Clean(authority: string) {
    forall c :: c in authority ==> !IsAuthorityBoundary(c)
  }

  lemma MaskIsClean(authority: string)
    requires Clean(authority)
    ensures Clean(Mask(authority))
  {
    hide FirstOf, LastOf;
    forall c | c in Mask(authority) ensures !IsAuthorityBoundary(c) {
      if c !in authority {
        assert c in MASK;
      }
    }
  }

  // ----- scanning

  datatype Piece = Text(text: string) | Authority(text: string)

  /** The text from `start` on, cut into the authorities that are scanned and what is between them. */
  function Pieces(s: string, start: nat): seq<Piece>
    requires start <= |s|
    decreases |s| - start
  {
    var separator := FindSeparator(s, start);
    if separator == -1 then [Text(s[start..])]
    else if !Opens(s, start, separator) then [Text(s[start..separator + 3])] + Pieces(s, separator + 3)
    else
      var end := AuthorityEnd(s, separator + 3);
      [Text(s[start..separator + 3]), Authority(s[separator + 3..end])] + Pieces(s, end)
  }

  function Joined(pieces: seq<Piece>): string {
    if pieces == [] then "" else pieces[0].text + Joined(pieces[1..])
  }

  function Masked(pieces: seq<Piece>): seq<Piece> {
    if pieces == [] then []
    else [if pieces[0].Authority? then Authority(Mask(pieces[0].text)) else pieces[0]] + Masked(pieces[1..])
  }

  function RedactFrom(s: string, start: nat): string
    requires start <= |s|
  {
    Joined(Masked(Pieces(s, start)))
  }

  function Redact(s: string): string { RedactFrom(s, 0) }

  lemma JoinedOne(p: Piece, rest: seq<Piece>)
    ensures Joined([p] + rest) == p.text + Joined(rest)
    ensures Masked([p] + rest) == [if p.Authority? then Authority(Mask(p.text)) else p] + Masked(rest)
  {
    assert ([p] + rest)[1..] == rest;
  }

  lemma JoinedTwo(text: string, authority: string, rest: seq<Piece>)
    ensures Joined([Text(text), Authority(authority)] + rest) == text + authority + Joined(rest)
    ensures Masked([Text(text), Authority(authority)] + rest) == [Text(text), Authority(Mask(authority))] + Masked(rest)
  {
    assert [Text(text), Authority(authority)] + rest == [Text(text)] + ([Authority(authority)] + rest);
    JoinedOne(Text(text), [Authority(authority)] + rest);
    JoinedOne(Authority(authority), rest);
    assert [Text(text)] + ([Authority(Mask(authority))] + Masked(rest))
           == [Text(text), Authority(Mask(authority))] + Masked(rest);
  }

  /**
   The turn of the scan at `start`: it goes on at `k`, after an authority at `first` or, if that is -1, after none.
   */
  ghost predicate GoesOn(s: string, start: nat, first: int, k: nat)
    requires start <= |s|
  {
    var separator := FindSeparator(s, start);
    separator != -1
    && if Opens(s, start, separator) then first == separator + 3 && k == AuthorityEnd(s, first)
       else first == -1 && k == separator + 3
  }

  lemma SkipPieces(s: string, start: nat, k: nat)
    requires start <= |s| && GoesOn(s, start, -1, k)
    ensures start + 3 <= k <= |s|
    ensures Pieces(s, start) == [Text(s[start..k])] + Pieces(s, k)
    ensures RedactFrom(s, start) == s[start..k] + RedactFrom(s, k)
  {
    SkipUnfolds(s, start, k);
    hide Pieces, Opens, FindSeparator, AuthorityEnd, Mask;
    JoinedOne(Text(s[start..k]), Pieces(s, k));
    JoinedOne(Text(s[start..k]), Masked(Pieces(s, k)));
  }

  lemma SkipUnfolds(s: string, start: nat, k: nat)
    requires start <= |s| && GoesOn(s, start, -1, k)
    ensures start + 3 <= k <= |s|
    ensures Pieces(s, start) == [Text(s[start..k])] + Pieces(s, k)
  {
    hide Opens, IsAuthorityBoundary, SeparatorAt;
  }

  lemma FoundPieces(s: string, start: nat, i: nat, k: nat)
    requires start <= |s| && GoesOn(s, start, i, k)
    ensures start + 3 <= i <= k <= |s|
    ensures Pieces(s, start) == [Text(s[start..i]), Authority(s[i..k])] + Pieces(s, k)
    ensures RedactFrom(s, start) == s[start..i] + Mask(s[i..k]) + RedactFrom(s, k)
  {
    FoundUnfolds(s, start, i, k);
    hide Pieces, Opens, FindSeparator, AuthorityEnd, Mask;
    JoinedTwo(s[start..i], s[i..k], Pieces(s, k));
    JoinedTwo(s[start..i], Mask(s[i..k]), Masked(Pieces(s, k)));
  }

  lemma FoundUnfolds(s: string, start: nat, i: nat, k: nat)
    requires start <= |s| && GoesOn(s, start, i, k)
    ensures start + 3 <= i <= k <= |s|
    ensures Pieces(s, start) == [Text(s[start..i]), Authority(s[i..k])] + Pieces(s, k)
  {
    hide Opens, IsAuthorityBoundary, SeparatorAt;
  }

  lemma LastPiece(s: string, start: nat)
    requires start <= |s| && FindSeparator(s, start) == -1
    ensures Pieces(s, start) == [Text(s[start..])] && RedactFrom(s, start) == s[start..]
  {
    JoinedOne(Text(s[start..]), []);
    assert [Text(s[start..])] + [] == [Text(s[start..])];
  }

  /** The pieces are the text: what masking does not replace stays where it is. */
  lemma {:induction false} PiecesJoin(s: string, start: nat)
    requires start <= |s|
    ensures Joined(Pieces(s, start)) == s[start..]
    decreases |s| - start
  {
    hide Pieces, RedactFrom, Mask, Joined, Masked;
    var separator := FindSeparator(s, start);
    if separator == -1 {
      LastPiece(s, start);
      JoinedOne(Text(s[start..]), []);
      assert [Text(s[start..])] + [] == [Text(s[start..])];
      assert Joined([]) == "" by { JoinedNone(); }
    } else if Opens(s, start, separator) {
      var i, k := separator + 3, AuthorityEnd(s, separator + 3);
      FoundPieces(s, start, i, k);
      PiecesJoin(s, k);
      JoinedTwo(s[start..i], s[i..k], Pieces(s, k));
    } else {
      SkipPieces(s, start, separator + 3);
      PiecesJoin(s, separator + 3);
      JoinedOne(Text(s[start..separator + 3]), Pieces(s, separator + 3));
    }
  }

  lemma JoinedNone()
    ensures Joined([]) == "" && Masked([]) == []
  {
  }

  // ----- scanning the redacted text

  lemma SameAt(s: string, start: nat, t: string, o: nat, n: nat, m: nat)
    requires m <= n && start + n <= |s| && o + n <= |t| && s[start..start + n] == t[o..o + n]
    ensures s[start..start + m] == t[o..o + m] && s[start + m..start + n] == t[o + m..o + n]
    ensures m < n ==> s[start + m] == t[o + m]
  {
    var u := s[start..start + n];
    assert s[start..start + m] == u[..m] && s[start + m..start + n] == u[m..];
    assert t[o..o + m] == u[..m] && t[o + m..o + n] == u[m..];
    if m < n { assert s[start + m] == u[m] == t[o + m]; }
  }

  lemma {:induction false} SameSeparator(s: string, start: nat, t: string, o: nat)
    requires start <= |s| && FindSeparator(s, start) != -1
    requires var n := FindSeparator(s, start) + 3 - start; o + n <= |t| && s[start..start + n] == t[o..o + n]
    ensures FindSeparator(t, o) == o + FindSeparator(s, start) - start
    decreases |s| - start
  {
    var n := FindSeparator(s, start) + 3 - start;
    SameAt(s, start, t, o, n, 0);
    SameAt(s, start, t, o, n, 1);
    SameAt(s, start, t, o, n, 2);
    if !SeparatorAt(s, start) {
      SameSeparator(s, start + 1, t, o + 1);
    }
  }

  lemma {:induction false} NoSeparator(s: string, start: nat, t: string, o: nat)
    requires start <= |s| && FindSeparator(s, start) == -1
    requires o <= |t| && s[start..] == t[o..]
    ensures FindSeparator(t, o) == -1
    decreases |s| - start
  {
    var n := |s| - start;
    assert n == |t| - o && s[start..start + n] == s[start..] && t[o..o + n] == t[o..];
    if n >= 3 {
      SameAt(s, start, t, o, n, 0);
      SameAt(s, start, t, o, n, 2);
    }
    if n >= 1 {
      SameAt(s, start, t, o, n, 1);
      assert s[start + 1..] == s[start + 1..start + n] && t[o + 1..] == t[o + 1..o + n];
      NoSeparator(s, start + 1, t, o + 1);
    }
  }

  lemma {:induction false} SameScheme(s: string, start: nat, i: nat, t: string, o: nat)
    requires start <= i <= |s| && o + (i - start) <= |t| && s[start..i] == t[o..o + (i - start)]
    ensures SchemeStart(t, o, o + (i - start)) == o + (SchemeStart(s, start, i) - start)
    decreases i
  {
    if i > start {
      var n := i - start;
      SameAt(s, start, t, o, n, n - 1);
      SameScheme(s, start, i - 1, t, o);
    }
  }

  /** What comes after the first separator has no influence on where it is and whether it opens an authority. */
  lemma SameTurn(s: string, start: nat, t: string, o: nat)
    requires start <= |s| && FindSeparator(s, start) != -1
    requires var n := FindSeparator(s, start) + 3 - start; o + n <= |t| && s[start..start + n] == t[o..o + n]
    ensures var i := o + FindSeparator(s, start) - start;
            FindSeparator(t, o) == i && (Opens(t, o, i) <==> Opens(s, start, FindSeparator(s, start)))
  {
    hide SeparatorAt, Opens;
    SameSeparator(s, start, t, o);
    SameOpens(s, start, FindSeparator(s, start), t, o);
  }

  lemma SameOpens(s: string, start: nat, separator: nat, t: string, o: nat)
    requires start <= separator && separator + 3 <= |s|
    requires var n := separator + 3 - start; o + n <= |t| && s[start..start + n] == t[o..o + n]
    ensures Opens(t, o, o + separator - start) <==> Opens(s, start, separator)
  {
    hide IsSchemeCharacter, IsAsciiLetter;
    var n := separator + 3 - start;
    SameAt(s, start, t, o, n, separator - start);
    SameScheme(s, start, separator, t, o);
    SameAt(s, start, t, o, n, SchemeStart(s, start, separator) - start);
  }

  lemma CutInThree(t: string, o: nat, a: string, b: string, c: string)
    requires o <= |t| && t[o..] == a + b + c
    ensures t[o..o + |a|] == a && t[o + |a|..o + |a| + |b|] == b && t[o + |a| + |b|..] == c
    ensures o + |a| + |b| + |c| == |t|
  {
    var u := t[o..];
    assert u[..|a|] == a && u[|a|..|a| + |b|] == b && u[|a| + |b|..] == c;
    assert t[o..o + |a|] == u[..|a|] && t[o + |a|..o + |a| + |b|] == u[|a|..|a| + |b|]
           && t[o + |a| + |b|..] == u[|a| + |b|..];
  }

  lemma RedactKeepsTheHead(s: string, start: nat)
    requires start <= |s|
    ensures start == |s| ==> RedactFrom(s, start) == ""
    ensures start < |s| ==> RedactFrom(s, start) != "" && RedactFrom(s, start)[0] == s[start]
  {
    hide RedactFrom, Pieces;
    var separator := FindSeparator(s, start);
    if separator == -1 {
      LastPiece(s, start);
    } else if Opens(s, start, separator) {
      FoundPieces(s, start, separator + 3, AuthorityEnd(s, separator + 3));
    } else {
      SkipPieces(s, start, separator + 3);
    }
  }

  /** A clean authority ends where the redacted rest begins. */
  lemma EndOfClean(s: string, k: nat, t: string, i: nat, end: nat)
    requires k <= |s| && (k == |s| || IsAuthorityBoundary(s[k]))
    requires i <= end <= |t| && Clean(t[i..end]) && t[end..] == RedactFrom(s, k)
    ensures AuthorityEnd(t, i) == end
  {
    hide RedactFrom, IsAuthorityBoundary;
    RedactKeepsTheHead(s, k);
    forall j | i <= j < end ensures !IsAuthorityBoundary(t[j]) { assert t[j] == t[i..end][j - i]; }
    if k < |s| { assert t[end] == t[end..][0]; }
    AuthorityEndIs(t, i, end);
  }

  /** Scanning the redacted text finds the same pieces, with the authorities masked. */
  lemma {:induction false} RescanFindsTheMaskedPieces(s: string, start: nat, t: string, o: nat)
    requires start <= |s| && o <= |t| && t[o..] == RedactFrom(s, start)
    ensures Pieces(t, o) == Masked(Pieces(s, start))
    decreases |s| - start
  {
    hide RedactFrom, Pieces, Masked, Mask, IsAuthorityBoundary, IsAsciiLetter;
    var separator := FindSeparator(s, start);
    if separator == -1 {
      LastPiece(s, start);
      NoSeparator(s, start, t, o);
      LastPiece(t, o);
      JoinedOne(Text(s[start..]), []);
      JoinedNone();
      assert [Text(s[start..])] + [] == [Text(s[start..])];
    } else if !Opens(s, start, separator) {
      SkipPieces(s, start, separator + 3);
      RescanSkip(s, start, separator + 3, t, o);
      RescanFindsTheMaskedPieces(s, separator + 3, t, o + separator + 3 - start);
      JoinedOne(Text(s[start..separator + 3]), Pieces(s, separator + 3));
    } else {
      var i, k := separator + 3, AuthorityEnd(s, separator + 3);
      FoundPieces(s, start, i, k);
      RescanFound(s, start, i, k, t, o);
      RescanFindsTheMaskedPieces(s, k, t, o + i - start + |Mask(s[i..k])|);
      JoinedTwo(s[start..i], s[i..k], Pieces(s, k));
    }
  }

  lemma RescanSkip(s: string, start: nat, k: nat, t: string, o: nat)
    requires start <= |s| && GoesOn(s, start, -1, k)
    requires o <= |t| && t[o..] == RedactFrom(s, start)
    ensures var k' := o + k - start;
            start <= k <= |s| && o <= k' <= |t| && t[k'..] == RedactFrom(s, k)
            && Pieces(t, o) == [Text(s[start..k])] + Pieces(t, k')
  {
    hide RedactFrom, Pieces, IsAsciiLetter;
    SkipPieces(s, start, k);
    CutInThree(t, o, s[start..k], "", RedactFrom(s, k));
    SameTurn(s, start, t, o);
    SkipPieces(t, o, o + k - start);
  }

  lemma FoundIsClean(s: string, i: nat, k: nat)
    requires i <= |s| && k == AuthorityEnd(s, i)
    ensures Clean(Mask(s[i..k])) && (k == |s| || IsAuthorityBoundary(s[k]))
  {
    AuthorityHasNoBoundary(s, i);
    MaskIsClean(s[i..k]);
  }

  lemma RescanFound(s: string, start: nat, i: nat, k: nat, t: string, o: nat)
    requires start <= |s| && GoesOn(s, start, i, k)
    requires o <= |t| && t[o..] == RedactFrom(s, start)
    ensures start <= i <= k <= |s|
    ensures var masked := Mask(s[i..k]);
            var k' := o + i - start + |masked|;
            o <= k' <= |t| && t[k'..] == RedactFrom(s, k)
            && Pieces(t, o) == [Text(s[start..i]), Authority(masked)] + Pieces(t, k')
  {
    hide RedactFrom, Pieces, IsAsciiLetter, Mask, Clean, IsAuthorityBoundary;
    FoundPieces(s, start, i, k);
    FoundIsClean(s, i, k);
    var masked := Mask(s[i..k]);
    var i' := o + i - start;
    CutInThree(t, o, s[start..i], masked, RedactFrom(s, k));
    SameTurn(s, start, t, o);
    EndOfClean(s, k, t, i', i' + |masked|);
    FoundPieces(t, o, i', i' + |masked|);
  }

  /** Redacting twice is redacting once, on every text. */
  lemma RedactIsIdempotent(s: string)
    ensures Redact(Redact(s)) == Redact(s)
  {
    hide Pieces, Masked;
    assert Redact(s)[0..] == RedactFrom(s, 0);
    RescanFindsTheMaskedPieces(s, 0, Redact(s), 0);
    MaskedTwice(Pieces(s, 0));
  }

  lemma {:induction false} MaskedTwice(pieces: seq<Piece>)
    ensures Masked(Masked(pieces)) == Masked(pieces)
    ensures forall p :: p in Masked(pieces) && p.Authority? ==> Mask(p.text) == p.text
  {
    hide Mask;
    if pieces != [] {
      MaskedTwice(pieces[1..]);
      if pieces[0].Authority? { MaskTwice(pieces[0].text); }
      assert Masked(pieces)[1..] == Masked(pieces[1..]);
    }
  }

  /** No authority that a scan of the redacted text finds has a user and a password, other than the masks. */
  lemma NothingScannedIsUnmasked(s: string, authority: string, user: string, password: string, host: string)
    requires Authority(authority) in Pieces(Redact(s), 0) && Splits(authority, user, password, host)
    ensures user == HIDDEN && password == HIDDEN
  {
    hide Pieces, Masked, Mask, Splits;
    assert Redact(s)[0..] == RedactFrom(s, 0);
    RescanFindsTheMaskedPieces(s, 0, Redact(s), 0);
    MaskedTwice(Pieces(s, 0));
    MaskKeepsTheHost(authority, user, password, host);
    HostHasNoAt(authority, user, password, host);
    MaskSplits(host);
    SplitsOnce(authority, user, password, host);
    SplitsOnce(authority, HIDDEN, HIDDEN, host);
  }

  lemma HostHasNoAt(authority: string, user: string, password: string, host: string)
    requires Splits(authority, user, password, host)
    ensures '@' !in host
  {
  }

  // ----- which authorities are scanned

  /** A separator after a scheme ends at `p`; an authority begins there, whether or not the scan stops at it. */
  predicate IsAuthorityAt(s: string, p: int) {
    p >= 3 && SeparatorAt(s, p - 3) && Opens(s, 0, p - 3)
  }

  /** The scan from `start` on finds an authority at `p`. */
  predicate Scanned(s: string, start: nat, p: int)
    requires start <= |s|
    decreases |s| - start
  {
    var separator := FindSeparator(s, start);
    if separator == -1 then false
    else if !Opens(s, start, separator) then Scanned(s, separator + 3, p)
    else p == separator + 3 || Scanned(s, AuthorityEnd(s, separator + 3), p)
  }

  /** The colon of the separator before `p` is the last character of an authority that the scan finds. */
  ghost predicate EndsInScanned(s: string, start: nat, p: int)
    requires start <= |s|
  {
    exists q: nat :: q <= |s| && Scanned(s, start, q) && AuthorityEnd(s, q) == p - 2
  }

  /** A scan goes on after a character outside schemes, or with one that ends an authority. */
  predicate Apart(s: string, start: nat)
    requires start <= |s|
  {
    start == 0 || !IsSchemeCharacter(s[start - 1]) || (start < |s| && IsAuthorityBoundary(s[start])) || start == |s|
  }

  lemma {:induction false} ScannedIsInside(s: string, start: nat, p: int)
    requires start <= |s| && Scanned(s, start, p)
    ensures start + 3 <= p <= |s|
    decreases |s| - start
  {
    hide Opens, SeparatorAt, IsAuthorityBoundary;
    var separator := FindSeparator(s, start);
    if !Opens(s, start, separator) {
      ScannedIsInside(s, separator + 3, p);
    } else if p != separator + 3 {
      ScannedIsInside(s, AuthorityEnd(s, separator + 3), p);
    }
  }

  ghost predicate ScansText(s: string, start: nat, authority: string)
    requires start <= |s|
  {
    exists p: nat :: p <= |s| && Scanned(s, start, p) && s[p..AuthorityEnd(s, p)] == authority
  }

  lemma ScansTextTurn(s: string, start: nat, first: int, k: nat, authority: string)
    requires start <= |s| && GoesOn(s, start, first, k)
    ensures start + 3 <= k <= |s| && (first == -1 || 0 <= first <= k)
    ensures ScansText(s, start, authority) <==> (first != -1 && s[first..k] == authority) || ScansText(s, k, authority)
  {
    hide Opens, SeparatorAt, IsAuthorityBoundary;
    if first != -1 && s[first..k] == authority {
      assert Scanned(s, start, first) && s[first..AuthorityEnd(s, first)] == authority;
    }
    if p: nat :| p <= |s| && Scanned(s, k, p) && s[p..AuthorityEnd(s, p)] == authority {
      assert Scanned(s, start, p);
    }
    if p: nat :| p <= |s| && Scanned(s, start, p) && s[p..AuthorityEnd(s, p)] == authority {
      assert Scanned(s, k, p) || p == first;
    }
  }

  /** The pieces that get masked are the authorities that the scan finds. */
  lemma {:induction false} ScannedArePieces(s: string, start: nat, authority: string)
    requires start <= |s|
    ensures Authority(authority) in Pieces(s, start) <==> ScansText(s, start, authority)
    decreases |s| - start
  {
    hide Pieces, Opens, SeparatorAt, ScansText;
    var separator := FindSeparator(s, start);
    if separator == -1 {
      LastPiece(s, start);
      NoText(s, start, authority);
    } else if Opens(s, start, separator) {
      var i, k := separator + 3, AuthorityEnd(s, separator + 3);
      FoundPieces(s, start, i, k);
      ScansTextTurn(s, start, i, k, authority);
      ScannedArePieces(s, k, authority);
    } else {
      SkipPieces(s, start, separator + 3);
      ScansTextTurn(s, start, -1, separator + 3, authority);
      ScannedArePieces(s, separator + 3, authority);
    }
  }

  lemma NoText(s: string, start: nat, authority: string)
    requires start <= |s| && FindSeparator(s, start) == -1
    ensures !ScansText(s, start, authority)
  {
  }

  lemma {:induction false} SameRun(s: string, start: nat, i: nat)
    requires start <= i <= |s|
    requires start == 0 || !IsSchemeCharacter(s[start - 1]) || (start < i && !IsSchemeCharacter(s[start]))
    ensures SchemeStart(s, start, i) == SchemeStart(s, 0, i)
    decreases i
  {
    if i > start && IsSchemeCharacter(s[i - 1]) { SameRun(s, start, i - 1); }
  }

  lemma OpensFrom(s: string, start: nat, i: nat)
    requires start <= i && SeparatorAt(s, i) && Apart(s, start)
    ensures Opens(s, start, i) <==> Opens(s, 0, i)
  {
    SameRun(s, start, i);
  }

  lemma TurnScans(s: string, start: nat, first: int, k: nat, p: int)
    requires start <= |s| && Apart(s, start) && GoesOn(s, start, first, k)
    ensures k <= |s| && Apart(s, k) && start + 3 <= k
    ensures Scanned(s, start, p) <==> (first != -1 && p == first) || Scanned(s, k, p)
    ensures first != -1 ==> IsAuthorityAt(s, first) && first <= k
    ensures start + 3 <= p < k + 3 && IsAuthorityAt(s, p) ==> first != -1 && (p == first || p == k + 2)
  {
    hide IsSchemeCharacter, IsAsciiLetter;
    var separator := FindSeparator(s, start);
    FirstSeparator(s, start);
    OpensFrom(s, start, separator);
    AuthorityHasNoBoundary(s, separator + 3);
    SlashIsApart(s, separator);
    if start + 3 <= p < k + 3 && p != separator + 3 && (first == -1 || p != k + 2) {
      NoSeparatorBetween(s, start, first, k, p);
    }
  }

  lemma NoSeparatorBetween(s: string, start: nat, first: int, k: nat, p: nat)
    requires start <= |s| && GoesOn(s, start, first, k)
    requires start + 3 <= p < k + 3 && p != FindSeparator(s, start) + 3 && (first == -1 || p != k + 2)
    ensures !SeparatorAt(s, p - 3)
  {
    hide IsSchemeCharacter, IsAsciiLetter;
    FirstSeparator(s, start);
    AuthorityHasNoBoundary(s, FindSeparator(s, start) + 3);
  }

  lemma SlashIsApart(s: string, separator: nat)
    requires SeparatorAt(s, separator)
    ensures Apart(s, separator + 3) && !IsSchemeCharacter(s[separator + 1]) && !IsSchemeCharacter(s[separator + 2])
  {
  }

  lemma EndsAfterTurn(s: string, start: nat, first: int, k: nat, p: int)
    requires start <= |s| && Apart(s, start) && GoesOn(s, start, first, k)
    ensures k <= |s|
    ensures EndsInScanned(s, start, p) <==> (first != -1 && k == p - 2) || EndsInScanned(s, k, p)
  {
    hide Scanned, AuthorityEnd, IsAuthorityAt, Apart;
    forall q ensures k <= |s| && (Scanned(s, start, q) <==> (first != -1 && q == first) || Scanned(s, k, q)) {
      TurnScans(s, start, first, k, q);
    }
    TurnScans(s, start, first, k, p);
    if first != -1 && k == p - 2 {
      assert Scanned(s, start, first) && AuthorityEnd(s, first) == p - 2;
    }
    if q: nat :| q <= |s| && Scanned(s, start, q) && AuthorityEnd(s, q) == p - 2 {
      if first == -1 || q != first { assert Scanned(s, k, q); }
    }
    if q: nat :| q <= |s| && Scanned(s, k, q) && AuthorityEnd(s, q) == p - 2 {
      assert Scanned(s, start, q);
    }
  }

  /** The scan finds exactly the authorities whose separator does not begin with the last character of one it finds. */
  lemma {:induction false} ScannedUnlessSwallowed(s: string, start: nat, p: int)
    requires start <= |s| && Apart(s, start)
    ensures Scanned(s, start, p) <==> start + 3 <= p && IsAuthorityAt(s, p) && !EndsInScanned(s, start, p)
    decreases |s| - start
  {
    hide Scanned, EndsInScanned, IsAuthorityAt, Apart;
    var separator := FindSeparator(s, start);
    if separator == -1 {
      NothingScanned(s, start, p);
    } else {
      var first := if Opens(s, start, separator) then separator + 3 else -1;
      var k := if Opens(s, start, separator) then AuthorityEnd(s, separator + 3) else separator + 3;
      TurnScans(s, start, first, k, p);
      EndsAfterTurn(s, start, first, k, p);
      ScannedUnlessSwallowed(s, k, p);
      if Scanned(s, k, p) { ScannedIsInside(s, k, p); }
      if p == first { EndsLater(s, k, p); }
    }
  }

  lemma NothingScanned(s: string, start: nat, p: int)
    requires start <= |s| && FindSeparator(s, start) == -1
    ensures !Scanned(s, start, p) && (start + 3 <= p ==> !IsAuthorityAt(s, p))
  {
    FirstSeparator(s, start);
  }

  lemma EndsLater(s: string, k: nat, p: int)
    requires p <= k <= |s|
    ensures !EndsInScanned(s, k, p)
  {
    forall q: nat | q <= |s| && Scanned(s, k, q) ensures AuthorityEnd(s, q) != p - 2 { ScannedIsInside(s, k, q); }
  }

  /** Where the stretch without boundary characters that ends at `end` begins. */
  function StretchStart(s: string, end: nat): (start: nat)
    requires end <= |s|
    ensures start <= end && (start > 0 ==> IsAuthorityBoundary(s[start - 1]))
    ensures forall i :: start <= i < end ==> !IsAuthorityBoundary(s[i])
  {
    if end == 0 || IsAuthorityBoundary(s[end - 1]) then end else StretchStart(s, end - 1)
  }

  /** The authority, if any, that ends right before the two slashes before `p` begins here. */
  function Preceding(s: string, p: int): (q: nat)
    requires IsAuthorityAt(s, p)
    ensures q < p
  {
    StretchStart(s, p - 2)
  }

  /** How many authorities stand one directly before the other before `p`. */
  function Chain(s: string, p: int): nat
    requires IsAuthorityAt(s, p)
    decreases p
  {
    if IsAuthorityAt(s, Preceding(s, p)) then 1 + Chain(s, Preceding(s, p)) else 0
  }

  lemma EndsAtPreceding(s: string, p: int, q: nat)
    requires IsAuthorityAt(s, p) && q <= |s| && IsAuthorityAt(s, q)
    ensures AuthorityEnd(s, q) == p - 2 <==> q == Preceding(s, p)
  {
    hide IsSchemeCharacter, IsAsciiLetter, Opens;
    AuthorityHasNoBoundary(s, q);
    var start := Preceding(s, p);
    if q == start { AuthorityEndIs(s, q, p - 2); }
    if AuthorityEnd(s, q) == p - 2 {
      assert IsAuthorityBoundary(s[q - 1]);
    }
  }

  /** The authority is swallowed exactly when the one directly before it is scanned. */
  lemma SwallowedByPreceding(s: string, p: int)
    requires IsAuthorityAt(s, p)
    ensures EndsInScanned(s, 0, p) <==> Scanned(s, 0, Preceding(s, p))
  {
    hide Scanned, IsAuthorityAt, AuthorityEnd, Preceding;
    var q := Preceding(s, p);
    assert q <= |s| by { PrecedingIsInside(s, p); }
    assert Apart(s, 0);
    forall a: nat | a <= |s| && Scanned(s, 0, a) ensures AuthorityEnd(s, a) == p - 2 <==> a == q {
      ScannedUnlessSwallowed(s, 0, a);
      EndsAtPreceding(s, p, a);
    }
  }

  lemma PrecedingIsInside(s: string, p: int)
    requires IsAuthorityAt(s, p)
    ensures Preceding(s, p) <= |s|
  {
  }

  /**
   The scan stops at every other authority of a chain in which each ends right before the slashes of the next: an
   authority is scanned exactly when an even number stand directly before it.
   */
  lemma {:induction false} ScannedExactlyWhen(s: string, p: int)
    ensures Scanned(s, 0, p) <==> IsAuthorityAt(s, p) && Chain(s, p) % 2 == 0
    decreases p
  {
    hide Scanned, Preceding;
    assert Apart(s, 0);
    ScannedUnlessSwallowed(s, 0, p);
    if IsAuthorityAt(s, p) {
      SwallowedByPreceding(s, p);
      ScannedExactlyWhen(s, Preceding(s, p));
    }
  }

  /** An authority with none directly before it is always scanned. */
  lemma FirstOfChainIsScanned(s: string, p: int)
    requires IsAuthorityAt(s, p) && !IsAuthorityAt(s, Preceding(s, p))
    ensures Scanned(s, 0, p)
  {
    hide Scanned, IsAuthorityAt, Preceding;
    ScannedExactlyWhen(s, p);
  }

  const TWO_SCHEMES := "a://b://u:p@h"

  lemma TwoSchemes()
    ensures FindSeparator(TWO_SCHEMES, 0) == 1 && FindSeparator(TWO_SCHEMES, 6) == -1
    ensures Opens(TWO_SCHEMES, 0, 1) && IsAuthorityAt(TWO_SCHEMES, 8) && AuthorityEnd(TWO_SCHEMES, 4) == 6
  {
    SchemeStartIs(TWO_SCHEMES, 0, 1, 0);
    SchemeStartIs(TWO_SCHEMES, 0, 5, 4);
    AuthorityEndIs(TWO_SCHEMES, 4, 6);
    assert FindSeparator(TWO_SCHEMES, 0) == 1;
    FirstSeparator(TWO_SCHEMES, 6);
  }

  /** So a second scheme right after a first one hides its credentials from the scan, and they stay. */
  lemma SecondSchemeIsMissed()
    ensures IsAuthorityAt(TWO_SCHEMES, 8) && !Scanned(TWO_SCHEMES, 0, 8) && Redact(TWO_SCHEMES) == TWO_SCHEMES
  {
    TwoSchemes();
    hide FindSeparator, Opens, AuthorityEnd, IsAuthorityAt, RedactFrom, Mask;
    FoundPieces(TWO_SCHEMES, 0, 4, 6);
    LastPiece(TWO_SCHEMES, 6);
    MaskOfHost();
    assert TWO_SCHEMES[0..4] + TWO_SCHEMES[4..6] + TWO_SCHEMES[6..] == TWO_SCHEMES;
  }

  lemma MaskOfHost()
    ensures Mask(TWO_SCHEMES[4..6]) == TWO_SCHEMES[4..6]
  {
    LastOfFinds(TWO_SCHEMES[4..6], '@');
  }

  // ----- a URL in a text

  /** A scheme by its characters, and the parts of an authority. */
  predicate IsScheme(scheme: string) {
    && scheme != "" && (scheme[0] in CAPITALS || scheme[0] in SMALL)
    && forall c :: c in scheme ==> c in CAPITALS || c in SMALL || c in "0123456789+-."
  }

  predicate NoBoundary(s: string) { forall c :: c in s ==> c !in BOUNDARIES }

  /** Text before a URL: no separator in it, and it does not run into the scheme. */
  ghost predicate Leads(before: string) {
    && (forall i :: !SeparatorAt(before, i))
    && (before != "" ==>
          var last := before[|before| - 1]; last !in CAPITALS && last !in SMALL && last !in "0123456789+-.")
  }

  lemma SchemeIs(scheme: string)
    requires IsScheme(scheme)
    ensures IsAsciiLetter(scheme[0]) && forall k :: 0 <= k < |scheme| ==> IsSchemeCharacter(scheme[k])
  {
    Letters(scheme[0]);
    hide CAPITALS, SMALL;
    forall k | 0 <= k < |scheme| ensures IsSchemeCharacter(scheme[k]) { SchemeCharacters(scheme[k]); }
  }

  lemma NoEarlierSeparator(s: string, before: string, scheme: string, i: nat)
    requires |before| + |scheme| <= |s| && s[..|before| + |scheme|] == before + scheme && i < |before| + |scheme|
    requires (forall j :: !SeparatorAt(before, j)) && scheme != ""
    requires forall k :: 0 <= k < |scheme| ==> IsSchemeCharacter(scheme[k])
    ensures !SeparatorAt(s, i)
  {
    assert forall j :: 0 <= j < |before| ==> s[j] == (before + scheme)[j] == before[j];
    assert forall k :: 0 <= k < |scheme| ==> s[|before| + k] == (before + scheme)[|before| + k] == scheme[k];
    if i + 3 <= |before| {
      assert !SeparatorAt(before, i);
    } else if i < |before| {
      assert s[|before|] == scheme[0];
    } else {
      assert s[i] == scheme[i - |before|];
    }
  }

  lemma HeadReads(s: string, before: string, scheme: string)
    requires |before| + |scheme| + 3 <= |s| && s[..|before| + |scheme| + 3] == before + scheme + "://"
    ensures SeparatorAt(s, |before| + |scheme|) && s[..|before| + |scheme|] == before + scheme
    ensures forall j :: 0 <= j < |before| ==> s[j] == before[j]
    ensures forall k :: 0 <= k < |scheme| ==> s[|before| + k] == scheme[k]
  {
    var m := |before| + |scheme|;
    var head := before + scheme + "://";
    assert forall j :: 0 <= j < m + 3 ==> s[j] == s[..m + 3][j] == head[j];
    assert head == (before + scheme) + "://" && head[m..] == "://";
    assert head[m] == head[m..][0] && head[m + 1] == head[m..][1] && head[m + 2] == head[m..][2];
    assert s[..m] == s[..m + 3][..m] == head[..m];
  }

  lemma SeparatorOf(s: string, before: string, scheme: string)
    requires Leads(before) && IsScheme(scheme)
    requires |before| + |scheme| + 3 <= |s| && s[..|before| + |scheme| + 3] == before + scheme + "://"
    ensures FindSeparator(s, 0) == |before| + |scheme|
  {
    hide CAPITALS, SMALL, IsSchemeCharacter, IsAsciiLetter, SeparatorAt, FindSeparator;
    SchemeIs(scheme);
    HeadReads(s, before, scheme);
    FirstSeparator(s, 0);
    if 0 <= FindSeparator(s, 0) < |before| + |scheme| {
      NoEarlierSeparator(s, before, scheme, FindSeparator(s, 0));
    }
  }

  lemma SchemeOpens(s: string, before: string, scheme: string)
    requires Leads(before) && IsScheme(scheme)
    requires |before| + |scheme| + 3 <= |s| && s[..|before| + |scheme| + 3] == before + scheme + "://"
    ensures Opens(s, 0, |before| + |scheme|)
  {
    var n, m := |before|, |before| + |scheme|;
    HeadReads(s, before, scheme);
    assert s[n + 0] == scheme[0];
    SchemeIs(scheme);
    if n > 0 { SchemeCharacters(before[n - 1]); }
    hide *;
    forall j | n <= j < m ensures IsSchemeCharacter(s[j]) { assert s[n + (j - n)] == scheme[j - n]; }
    SchemeStartIs(s, 0, m, n);
    OpensAt(s, m, n);
  }

  lemma OpensAt(s: string, separator: nat, scheme: nat)
    requires separator < |s| && SchemeStart(s, 0, separator) == scheme && IsAsciiLetter(s[scheme])
    ensures Opens(s, 0, separator)
  {
  }

  /**
   User and password of a URL are masked, wherever it stands in a text without another before it; scheme, host and the
   text before it stay, and the text after it is redacted by itself.
   */
  lemma CredentialsAreMasked(
      before: string, scheme: string, user: string, password: string, host: string, tail: string)
    requires Leads(before) && IsScheme(scheme) && NoBoundary(user + password + host)
    requires user != "" && password != "" && ':' !in user && '@' !in host && (tail != "" ==> tail[0] in BOUNDARIES)
    ensures var s := before + scheme + "://" + user + ":" + password + "@" + host + tail;
            Redact(s)
            == before + scheme + "://" + "[REDACTED]:[REDACTED]@" + host + Redact(tail)
  {
    var authority := user + ":" + password + "@" + host;
    var s := before + scheme + "://" + user + ":" + password + "@" + host + tail;
    var head := before + scheme + "://";
    var i, k := |head|, |head| + |authority|;
    hide *;
    UrlParts(before, scheme, user, password, host, tail);
    SeparatorOf(s, before, scheme);
    SchemeOpens(s, before, scheme);
    forall j | i <= j < k ensures !IsAuthorityBoundary(s[j]) {
      assert s[j] == authority[j - i] by { assert s[i..k][j - i] == s[j]; }
      Boundaries(s[j]);
      InParts(user, password, host, j - i);
    }
    if tail != "" { Boundaries(s[k]); }
    AuthorityEndIs(s, i, k);
    FoundAuthority(s, i, k);
    MaskOf(authority, user, password, host);
    RestByItself(s, k);
    Join(head, host, Redact(tail));
  }

  lemma {:induction false} SeparatorShifts(s: string, k: nat, a: nat)
    requires k + a <= |s|
    ensures var i := FindSeparator(s[k..], a);
            FindSeparator(s, k + a) == if i == -1 then -1 else k + i
    decreases |s| - a
  {
    assert SeparatorAt(s[k..], a) == SeparatorAt(s, k + a);
    if k + a < |s| && !SeparatorAt(s, k + a) { SeparatorShifts(s, k, a + 1); }
  }

  lemma {:induction false} SchemeShifts(s: string, k: nat, a: nat, i: nat)
    requires k + a <= k + i <= |s|
    ensures SchemeStart(s, k + a, k + i) == k + SchemeStart(s[k..], a, i)
    decreases i
  {
    if i > a && IsSchemeCharacter(s[k + i - 1]) { SchemeShifts(s, k, a, i - 1); }
  }

  lemma {:induction false} AuthorityShifts(s: string, k: nat, i: nat)
    requires k + i <= |s|
    ensures AuthorityEnd(s, k + i) == k + AuthorityEnd(s[k..], i)
    decreases |s| - i
  {
    if k + i < |s| && !IsAuthorityBoundary(s[k + i]) { AuthorityShifts(s, k, i + 1); }
  }

  lemma TurnShifts(s: string, k: nat, a: nat, first: int, next: nat)
    requires k + a <= |s| && GoesOn(s[k..], a, first, next)
    ensures GoesOn(s, k + a, if first == -1 then -1 else k + first, k + next)
  {
    hide SeparatorAt, IsSchemeCharacter, IsAsciiLetter, IsAuthorityBoundary, FindSeparator, SchemeStart, AuthorityEnd;
    var i := FindSeparator(s[k..], a);
    SeparatorShifts(s, k, a);
    SchemeShifts(s, k, a, i);
    AuthorityShifts(s, k, i + 3);
  }

  lemma SameSlice(s: string, k: nat, a: nat, b: nat)
    requires k + a <= k + b <= |s|
    ensures s[k + a..k + b] == s[k..][a..b] && s[k + a..] == s[k..][a..]
  {
  }

  lemma FoundShifts(s: string, k: nat, a: nat, first: nat, next: nat)
    requires k + a <= |s| && GoesOn(s[k..], a, first, next) && GoesOn(s, k + a, k + first, k + next)
    requires k + next <= |s| && Pieces(s, k + next) == Pieces(s[k..], next)
    ensures Pieces(s, k + a) == Pieces(s[k..], a)
  {
    hide Pieces, GoesOn;
    FoundUnfolds(s[k..], a, first, next);
    FoundUnfolds(s, k + a, k + first, k + next);
    SameSlice(s, k, a, first);
    SameSlice(s, k, first, next);
  }

  lemma SkipShifts(s: string, k: nat, a: nat, next: nat)
    requires k + a <= |s| && GoesOn(s[k..], a, -1, next) && GoesOn(s, k + a, -1, k + next)
    requires k + next <= |s| && Pieces(s, k + next) == Pieces(s[k..], next)
    ensures Pieces(s, k + a) == Pieces(s[k..], a)
  {
    hide Pieces, GoesOn;
    SkipUnfolds(s[k..], a, next);
    SkipUnfolds(s, k + a, k + next);
    SameSlice(s, k, a, next);
  }

  lemma EndShifts(s: string, k: nat, a: nat)
    requires k + a <= |s| && FindSeparator(s[k..], a) == -1
    ensures Pieces(s, k + a) == Pieces(s[k..], a)
  {
    SeparatorShifts(s, k, a);
    SameSlice(s, k, a, a);
    LastPiece(s, k + a);
    LastPiece(s[k..], a);
  }

  /** The scan never looks back: from `k` on it finds in a text what it finds in the rest by itself. */
  lemma {:induction false} ScanShifts(s: string, k: nat, a: nat)
    requires k + a <= |s|
    ensures Pieces(s, k + a) == Pieces(s[k..], a)
    decreases |s| - a
  {
    var t, i := s[k..], FindSeparator(s[k..], a);
    if i == -1 {
      EndShifts(s, k, a);
    } else {
      var found := Opens(t, a, i);
      var first, next := if found then i + 3 else -1, if found then AuthorityEnd(t, i + 3) else i + 3;
      assert GoesOn(t, a, first, next);
      hide Pieces, GoesOn, FindSeparator, AuthorityEnd, Opens;
      TurnShifts(s, k, a, first, next);
      ScanShifts(s, k, next);
      if found { FoundShifts(s, k, a, first, next); } else { SkipShifts(s, k, a, next); }
    }
  }

  lemma RestByItself(s: string, k: nat)
    requires k <= |s|
    ensures RedactFrom(s, k) == Redact(s[k..])
  {
    ScanShifts(s, k, 0);
  }

  lemma UrlParts(before: string, scheme: string, user: string, password: string, host: string, tail: string)
    ensures var authority, head := user + ":" + password + "@" + host, before + scheme + "://";
            var s := before + scheme + "://" + user + ":" + password + "@" + host + tail;
            var k := |head| + |authority|;
            && |s| == k + |tail| && |head| == |before| + |scheme| + 3
            && s[..|head|] == head && s[|head|..k] == authority && s[k..] == tail && (tail != "" ==> s[k] == tail[0])
            && |authority| == |user| + |password| + |host| + 2
  {
    var authority, head := user + ":" + password + "@" + host, before + scheme + "://";
    assert before + scheme + "://" + user + ":" + password + "@" + host + tail == head + (authority + tail);
  }

  lemma FoundAuthority(s: string, i: nat, k: nat)
    requires 3 <= i <= k <= |s| && FindSeparator(s, 0) == i - 3 && Opens(s, 0, i - 3) && AuthorityEnd(s, i) == k
    ensures Redact(s) == s[..i] + Mask(s[i..k]) + RedactFrom(s, k)
  {
    FoundPieces(s, 0, i, k);
    hide Opens, FindSeparator, AuthorityEnd, Mask, RedactFrom;
    assert s[0..i] == s[..i];
  }

  lemma MaskOf(authority: string, user: string, password: string, host: string)
    requires authority == user + ":" + password + "@" + host
    requires user != "" && password != "" && ':' !in user && '@' !in host
    ensures Mask(authority) == "[REDACTED]:[REDACTED]@" + host
  {
    MaskKeepsTheHost(authority, user, password, host);
  }

  lemma Join(head: string, host: string, rest: string)
    ensures head + ("[REDACTED]:[REDACTED]@" + host) + rest == head + "[REDACTED]:[REDACTED]@" + host + rest
  {
  }

  lemma InParts(user: string, password: string, host: string, j: nat)
    requires NoBoundary(user + password + host) && j < |user| + |password| + |host| + 2
    ensures (user + ":" + password + "@" + host)[j] !in BOUNDARIES
  {
    var all, c := user + password + host, (user + ":" + password + "@" + host)[j];
    if j < |user| { assert all[j] == c; }
    if |user| < j < |user| + 1 + |password| { assert all[j - 1] == c; }
    if |user| + 1 + |password| < j { assert all[j - 2] == c; }
    assert c in all || c == ':' || c == '@';
  }

  // ----- the loop

  lemma Append(redacted: string, before: string, rest: string)
    ensures redacted + (before + rest) == redacted + before + rest
  {
  }

  method RedactConnectionCredentials(value: string) returns (redacted: string)
    ensures redacted == Redact(value)
  {
    hide RedactFrom, Pieces, SeparatorAt, Mask;
    redacted := "";
    var searchStart := 0;
    while searchStart < |value|
      invariant searchStart <= |value|
      invariant redacted + RedactFrom(value, searchStart) == RedactFrom(value, 0)
    {
      var separator := FindSeparator(value, searchStart);
      if separator == -1 {
        LastPiece(value, searchStart);
        return redacted + value[searchStart..];
      }

      var schemeStart := separator;
      while schemeStart > searchStart && IsSchemeCharacter(value[schemeStart - 1])
        invariant searchStart <= schemeStart <= separator
        invariant forall j :: schemeStart <= j < separator ==> IsSchemeCharacter(value[j])
      {
        schemeStart := schemeStart - 1;
      }
      SchemeStartIs(value, searchStart, separator, schemeStart);

      var authorityStart := separator + 3;
      if !IsAsciiLetter(value[schemeStart]) {
        SkipPieces(value, searchStart, authorityStart);
        Append(redacted, value[searchStart..authorityStart], RedactFrom(value, authorityStart));
        redacted := redacted + value[searchStart..authorityStart];
        searchStart := authorityStart;
        continue;
      }

      var authorityEnd := authorityStart;
      while authorityEnd < |value| && !IsAuthorityBoundary(value[authorityEnd])
        invariant authorityStart <= authorityEnd <= |value|
        invariant forall j :: authorityStart <= j < authorityEnd ==> !IsAuthorityBoundary(value[j])
      {
        authorityEnd := authorityEnd + 1;
      }
      AuthorityEndIs(value, authorityStart, authorityEnd);
      FoundPieces(value, searchStart, authorityStart, authorityEnd);

      var authority := value[authorityStart..authorityEnd];
      Append(redacted, value[searchStart..authorityStart] + Mask(authority), RedactFrom(value, authorityEnd));
      Append(redacted, value[searchStart..authorityStart], Mask(authority));
      redacted := redacted + value[searchStart..authorityStart];
      var masked := MaskAuthority(authority);
      redacted := redacted + masked;
      searchStart := authorityEnd;
    }
    RedactKeepsTheHead(value, |value|);
  }

  /** The branch of the loop that masks one authority. */
  method MaskAuthority(authority: string) returns (masked: string)
    ensures masked == Mask(authority)
  {
    hide FirstOf, LastOf, MaskBefore;
    var credentialEnd := LastOf(authority, '@');
    var credentialSeparator := FirstOf(authority, ':');
    LastOfFinds(authority, '@');
    if credentialSeparator < 1 || credentialEnd <= credentialSeparator + 1 {
      masked := authority;
    } else {
      masked := MaskBefore(authority[credentialEnd + 1..]);
    }
  }
}
