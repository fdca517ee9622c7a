/** SQL fragments with `$n` placeholders: shifting them, joining them under one WHERE, and what the result binds. */
module WhereFragments {
  import opened Basics
  import opened Texts
  datatype Token = Char(c: char) | Slot(number: nat)
  datatype Fragment<T> = Fragment(sql: string, params: seq<T>)

  /** A token with its parameter in place; `Unbound` is a placeholder that has none. */
  datatype Piece<T> = Text(c: char) | Value(value: T) | Unbound(number: nat)

  // ----- lexing and shifting

  /** The length of the run of digits at the start. */
  function DigitRun(s: string): (n: nat)
    ensures n <= |s| && AllDigits(s[..n]) && (n == |s| || !IsDigit(s[n]))
  {
    if s == "" || !IsDigit(s[0]) then 0
    else
      var n := DigitRun(s[1..]);
      assert s[..n + 1] == [s[0]] + s[1..][..n];
      n + 1
  }

  predicate SlotAt(s: string) { |s| >= 2 && s[0] == '$' && IsDigit(s[1]) }

  /** The tokens as the driver, and the pattern `\$(\d+)`, see them. */
  function Lex(s: string): seq<Token>
    decreases |s|
  {
    if s == "" then []
    else if SlotAt(s) then
      var n := DigitRun(s[1..]);
      [Slot(Number(s[1..][..n]))] + Lex(s[1..][n..])
    else [Char(s[0])] + Lex(s[1..])
  }

  function Offset(s: string, k: nat): string
    decreases |s|
  {
    if s == "" then ""
    else if SlotAt(s) then
      var n := DigitRun(s[1..]);
      "$" + Decimal(Number(s[1..][..n]) + k) + Offset(s[1..][n..], k)
    else [s[0]] + Offset(s[1..], k)
  }

  function Shifted(tokens: seq<Token>, k: nat): seq<Token> {
    if tokens == [] then []
    else [if tokens[0].Slot? then Slot(tokens[0].number + k) else tokens[0]] + Shifted(tokens[1..], k)
  }

  predicate StartsApart(s: string) { s == "" || !IsDigit(s[0]) }

  lemma {:induction false} DigitRunIs(digits: string, rest: string)
    requires AllDigits(digits) && StartsApart(rest)
    ensures DigitRun(digits + rest) == |digits|
  {
    if digits != "" {
      assert (digits + rest)[1..] == digits[1..] + rest;
      DigitRunIs(digits[1..], rest);
    } else {
      assert digits + rest == rest;
    }
  }

  lemma OffsetStarts(s: string, k: nat)
    ensures s == "" <==> Offset(s, k) == ""
    ensures s != "" ==> Offset(s, k)[0] == s[0]
  {
  }

  /** A placeholder followed by no further digit is one token. */
  lemma SlotFirst(digits: string, rest: string)
    requires digits != "" && AllDigits(digits) && StartsApart(rest)
    ensures Lex("$" + digits + rest) == [Slot(Number(digits))] + Lex(rest)
    ensures forall k: nat :: Offset("$" + digits + rest, k) == "$" + Decimal(Number(digits) + k) + Offset(rest, k)
  {
    var s := "$" + digits + rest;
    assert s[1..] == digits + rest;
    DigitRunIs(digits, rest);
    assert s[1..][..|digits|] == digits && s[1..][|digits|..] == rest;
  }

  lemma CharFirst(c: char, rest: string)
    requires c != '$' || StartsApart(rest)
    ensures Lex([c] + rest) == [Char(c)] + Lex(rest)
    ensures forall k: nat :: Offset([c] + rest, k) == [c] + Offset(rest, k)
  {
    assert ([c] + rest)[1..] == rest;
  }

  /** A text is empty, begins with a placeholder, or begins with another character. */
  lemma Cut(s: string) returns (digits: string, rest: string)
    requires s != ""
    ensures AllDigits(digits) && |rest| < |s|
    ensures SlotAt(s) ==> digits != "" && StartsApart(rest) && s == "$" + digits + rest
    ensures !SlotAt(s) ==> s == [s[0]] + rest && (s[0] != '$' || StartsApart(rest))
  {
    if SlotAt(s) {
      var n := DigitRun(s[1..]);
      digits, rest := s[1..][..n], s[1..][n..];
    } else {
      digits, rest := "", s[1..];
    }
  }

  /** The shifted text has the same tokens with every number moved up, and nothing else changed. */
  lemma {:induction false} LexOfOffset(s: string, k: nat)
    ensures Lex(Offset(s, k)) == Shifted(Lex(s), k)
    decreases |s|
  {
    if s != "" {
      var digits, rest := Cut(s);
      LexOfOffset(rest, k);
      OffsetStarts(rest, k);
      if SlotAt(s) {
        SlotFirst(digits, rest);
        DecimalReadsBack(Number(digits) + k);
        SlotFirst(Decimal(Number(digits) + k), Offset(rest, k));
      } else {
        CharFirst(s[0], rest);
        CharFirst(s[0], Offset(rest, k));
      }
    }
  }

  lemma {:induction false} OffsetTwice(s: string, a: nat, b: nat)
    ensures Offset(Offset(s, a), b) == Offset(s, a + b)
    decreases |s|
  {
    if s != "" {
      var digits, rest := Cut(s);
      OffsetTwice(rest, a, b);
      OffsetStarts(rest, a);
      if SlotAt(s) {
        SlotFirst(digits, rest);
        DecimalReadsBack(Number(digits) + a);
        SlotFirst(Decimal(Number(digits) + a), Offset(rest, a));
      } else {
        CharFirst(s[0], rest);
        CharFirst(s[0], Offset(rest, a));
      }
    }
  }

  lemma Regroup<T>(a: seq<T>, b: seq<T>, c: seq<T>)
    ensures a + (b + c) == (a + b) + c
  {
  }

  /** Texts that do not run into each other are lexed and shifted apart. */
  lemma {:induction false} LexApart(a: string, b: string)
    requires StartsApart(b)
    ensures Lex(a + b) == Lex(a) + Lex(b)
    decreases |a|
  {
    if a == "" {
      assert a + b == b;
    } else {
      var digits, rest := Cut(a);
      LexApart(rest, b);
      hide Lex, Number;
      if SlotAt(a) {
        Regroup("$" + digits, rest, b);
        SlotFirst(digits, rest);
        SlotFirst(digits, rest + b);
        Regroup([Slot(Number(digits))], Lex(rest), Lex(b));
      } else {
        Regroup([a[0]], rest, b);
        CharFirst(a[0], rest);
        CharFirst(a[0], rest + b);
        Regroup([Char(a[0])], Lex(rest), Lex(b));
      }
    }
  }

  lemma {:induction false} OffsetApart(a: string, b: string, k: nat)
    requires StartsApart(b)
    ensures Offset(a + b, k) == Offset(a, k) + Offset(b, k)
    decreases |a|
  {
    if a == "" {
      assert a + b == b;
    } else {
      var digits, rest := Cut(a);
      OffsetApart(rest, b, k);
      hide Offset, Number, Decimal;
      if SlotAt(a) {
        Regroup("$" + digits, rest, b);
        SlotFirst(digits, rest);
        SlotFirst(digits, rest + b);
        Regroup("$" + Decimal(Number(digits) + k), Offset(rest, k), Offset(b, k));
      } else {
        Regroup([a[0]], rest, b);
        CharFirst(a[0], rest);
        CharFirst(a[0], rest + b);
        Regroup([a[0]], Offset(rest, k), Offset(b, k));
      }
    }
  }

  // ----- clauses

  function TrimLeft(s: string): string {
    if s != "" && IsSpace(s[0]) then TrimLeft(s[1..]) else s
  }

  function TrimRight(s: string): string {
    if s != "" && IsSpace(s[|s| - 1]) then TrimRight(s[..|s| - 1]) else s
  }

  predicate IsLetter(c: char, upper: char, lower: char) { c == upper || c == lower }

  /** Takes a leading `WHERE` in any case, with at least one space, off. */
  function StripWhere(s: string): string {
    if |s| >= 6 && IsLetter(s[0], 'W', 'w') && IsLetter(s[1], 'H', 'h') && IsLetter(s[2], 'E', 'e')
       && IsLetter(s[3], 'R', 'r') && IsLetter(s[4], 'E', 'e') && IsSpace(s[5])
    then TrimLeft(s[5..]) else s
  }

  function Clause(sql: string): string { TrimRight(TrimLeft(StripWhere(sql))) }

  predicate Trimmed(s: string) { s != "" ==> !IsSpace(s[0]) && !IsSpace(s[|s| - 1]) }

  lemma {:induction false} TrimLeftTrims(s: string)
    ensures TrimLeft(s) != "" ==> !IsSpace(TrimLeft(s)[0])
  {
    if s != "" && IsSpace(s[0]) { TrimLeftTrims(s[1..]); }
  }

  lemma {:induction false} TrimRightTrims(s: string)
    ensures TrimRight(s) != "" ==> !IsSpace(TrimRight(s)[|TrimRight(s)| - 1]) && s != "" && TrimRight(s)[0] == s[0]
  {
    if s != "" && IsSpace(s[|s| - 1]) { TrimRightTrims(s[..|s| - 1]); }
  }

  lemma ClauseIsTrimmed(sql: string)
    ensures Trimmed(Clause(sql))
  {
    hide StripWhere, IsSpace, TrimLeft, TrimRight;
    TrimLeftTrims(StripWhere(sql));
    TrimRightTrims(TrimLeft(StripWhere(sql)));
  }

  /** A clause under WHERE is found again as it was. */
  lemma ClauseOfWhere(clause: string)
    requires Trimmed(clause)
    ensures clause != "" ==> Clause("WHERE " + clause) == clause
    ensures Clause("") == ""
  {
    hide IsSpace;
    assert IsSpace(' ') by { SpaceIsSpace(); }
    if clause != "" {
      var s := "WHERE " + clause;
      assert s[5..] == " " + clause;
      assert (" " + clause)[1..] == clause;
      assert TrimLeft(" " + clause) == TrimLeft(clause) == clause;
    }
  }

  predicate AllSpace(s: string) { forall c :: c in s ==> IsSpace(c) }

  lemma {:induction false} TrimLeftSkips(spaces: string, s: string)
    requires AllSpace(spaces)
    ensures TrimLeft(spaces + s) == TrimLeft(s)
    decreases |spaces|
  {
    hide IsSpace;
    if spaces == "" {
      assert spaces + s == s;
    } else {
      assert spaces[0] in spaces && forall c :: c in spaces[1..] ==> c in spaces;
      assert (spaces + s)[1..] == spaces[1..] + s;
      TrimLeftSkips(spaces[1..], s);
    }
  }

  lemma {:induction false} TrimRightSkips(s: string, spaces: string)
    requires AllSpace(spaces)
    ensures TrimRight(s + spaces) == TrimRight(s)
    decreases |spaces|
  {
    hide IsSpace;
    if spaces == "" {
      assert s + spaces == s;
    } else {
      var n := |spaces| - 1;
      assert spaces[n] in spaces && forall c :: c in spaces[..n] ==> c in spaces;
      assert (s + spaces)[..|s| + n] == s + spaces[..n];
      TrimRightSkips(s, spaces[..n]);
    }
  }

  /** White space around a clause goes, inside it stays. */
  lemma TrimmedAround(before: string, clause: string, after: string)
    requires AllSpace(before) && AllSpace(after) && Trimmed(clause)
    ensures TrimRight(TrimLeft(before + clause + after)) == clause
    ensures TrimLeft(TrimLeft(before + clause + after)) == TrimLeft(before + clause + after)
  {
    hide IsSpace;
    assert before + clause + after == before + (clause + after);
    TrimLeftSkips(before, clause + after);
    if clause == "" {
      assert clause + after == after + "";
      TrimLeftSkips(after, "");
    } else {
      assert TrimLeft(clause + after) == clause + after;
      TrimRightSkips(clause, after);
    }
  }

  /** A leading WHERE in whatever case is taken off with the white space around the clause. */
  lemma WhereIsTakenOff(where: string, before: string, clause: string, after: string)
    requires |where| == 5 && where[0] in "Ww" && where[1] in "Hh" && where[2] in "Ee" && where[3] in "Rr"
             && where[4] in "Ee"
    requires before != "" && AllSpace(before) && Trimmed(clause) && AllSpace(after)
    ensures Clause(where + before + clause + after) == clause
  {
    hide IsSpace, TrimLeft, TrimRight;
    var s := where + before + clause + after;
    assert s[5..] == before + clause + after && s[5] == before[0] && before[0] in before;
    TrimmedAround(before, clause, after);
  }

  /** Any other clause is only trimmed; a WHERE directly before a parenthesis, say, or before nothing stays. */
  lemma OthersAreTrimmed(before: string, clause: string, after: string)
    requires AllSpace(before) && Trimmed(clause) && AllSpace(after)
    requires var s := before + clause + after;
             |s| < 6 || s[0] !in "Ww" || s[1] !in "Hh" || s[2] !in "Ee" || s[3] !in "Rr" || s[4] !in "Ee"
             || !IsSpace(s[5])
    ensures Clause(before + clause + after) == clause
  {
    hide IsSpace, TrimLeft, TrimRight;
    TrimmedAround(before, clause, after);
  }

  lemma {:induction false} OffsetEnds(s: string, k: nat)
    requires s != "" && !IsSpace(s[|s| - 1])
    ensures Offset(s, k) != "" && !IsSpace(Offset(s, k)[|Offset(s, k)| - 1])
    decreases |s|
  {
    hide IsSpace, Offset, Number, Decimal;
    var digits, rest := Cut(s);
    OffsetStarts(rest, k);
    if rest != "" {
      assert s[|s| - 1] == rest[|rest| - 1];
      OffsetEnds(rest, k);
    }
    if SlotAt(s) {
      SlotFirst(digits, rest);
      var shifted := Decimal(Number(digits) + k);
      DecimalReadsBack(Number(digits) + k);
      assert shifted[|shifted| - 1] in shifted;
      DigitIsNoSpace(shifted[|shifted| - 1]);
    } else {
      CharFirst(s[0], rest);
    }
  }

  lemma OffsetTrimmed(s: string, k: nat)
    requires Trimmed(s)
    ensures Trimmed(Offset(s, k))
  {
    if s != "" {
      OffsetStarts(s, k);
      OffsetEnds(s, k);
    }
  }

  // ----- combining

  /** What a fragment contributes: its clause, which is not empty, and its parameters. */
  datatype Part<T> = Part(clause: string, params: seq<T>)

  function Parts<T>(fs: seq<Fragment<T>>): seq<Part<T>> {
    if fs == [] then []
    else
      var clause := Clause(fs[0].sql);
      (if clause == "" then [] else [Part(clause, fs[0].params)]) + Parts(fs[1..])
  }

  function Glue(a: string, b: string): string { a + " AND " + b }

  function Join(clauses: seq<string>): string {
    if clauses == [] then "" else if |clauses| == 1 then clauses[0] else Glue(clauses[0], Join(clauses[1..]))
  }

  function Params<T>(parts: seq<Part<T>>): seq<T> {
    if parts == [] then [] else parts[0].params + Params(parts[1..])
  }

  /** The clauses, each shifted by `k` and the parameters before it. */
  function Clauses<T>(parts: seq<Part<T>>, k: nat): seq<string> {
    if parts == [] then [] else [Offset(parts[0].clause, k)] + Clauses(parts[1..], k + |parts[0].params|)
  }

  function Under<T>(clauses: seq<string>, params: seq<T>): Fragment<T> {
    Fragment(if clauses == [] then "" else "WHERE " + Join(clauses), params)
  }

  function Combined<T>(fs: seq<Fragment<T>>): Fragment<T> {
    Under(Clauses(Parts(fs), 0), Params(Parts(fs)))
  }

  lemma {:induction false} PartsApart<T>(a: seq<Fragment<T>>, b: seq<Fragment<T>>)
    ensures Parts(a + b) == Parts(a) + Parts(b)
  {
    hide Clause;
    if a == [] {
      assert a + b == b;
    } else {
      assert (a + b)[1..] == a[1..] + b;
      PartsApart(a[1..], b);
    }
  }

  lemma {:induction false} Apart<T>(a: seq<Part<T>>, b: seq<Part<T>>, k: nat)
    ensures Params(a + b) == Params(a) + Params(b)
    ensures Clauses(a + b, k) == Clauses(a, k) + Clauses(b, k + |Params(a)|)
  {
    hide Offset;
    if a == [] {
      assert a + b == b;
    } else {
      assert (a + b)[1..] == a[1..] + b;
      Apart(a[1..], b, k + |a[0].params|);
    }
  }

  lemma OnePart<T>(part: Part<T>, k: nat)
    ensures Params([part]) == part.params && Clauses([part], k) == [Offset(part.clause, k)]
  {
  }

  lemma OneFragment<T>(f: Fragment<T>)
    ensures Parts([f]) == if Clause(f.sql) == "" then [] else [Part(Clause(f.sql), f.params)]
  {
    hide Clause;
    assert Parts([f][1..]) == [];
  }

  method CombineWhereFragments<T>(fragments: seq<Fragment<T>>) returns (combined: Fragment<T>)
    ensures combined == Combined(fragments)
  {
    hide Offset, Clause, Params, Clauses, Parts;
    var params: seq<T> := [];
    var clauses: seq<string> := [];
    NoParts<T>(0);
    for i := 0 to |fragments|
      invariant params == Params(Parts(fragments[..i])) && clauses == Clauses(Parts(fragments[..i]), 0)
    {
      var fragment := fragments[i];
      var clause := Clause(fragment.sql);
      assert fragments[..i + 1] == fragments[..i] + [fragment];
      PartsApart(fragments[..i], [fragment]);
      OneFragment(fragment);
      if clause == "" {
        assert Parts(fragments[..i]) + [] == Parts(fragments[..i]);
        continue;
      }
      Apart(Parts(fragments[..i]), [Part(clause, fragment.params)], 0);
      OnePart(Part(clause, fragment.params), |params|);
      clauses := clauses + [Offset(clause, |params|)];
      params := params + fragment.params;
    }
    assert fragments[..|fragments|] == fragments;
    combined := Fragment(if |clauses| > 0 then "WHERE " + Join(clauses) else "", params);
  }

  lemma NoParts<T>(k: nat)
    ensures Parts<T>([]) == [] && Params<T>([]) == [] && Clauses<T>([], k) == []
  {
  }

  // ----- combining what was combined

  ghost predicate AllTrimmed(clauses: seq<string>) {
    forall c :: c in clauses ==> c != "" && Trimmed(c)
  }

  ghost predicate PartsTrimmed<T>(parts: seq<Part<T>>) {
    forall p :: p in parts ==> p.clause != "" && Trimmed(p.clause)
  }

  lemma {:induction false} PartsAreTrimmed<T>(fs: seq<Fragment<T>>)
    ensures PartsTrimmed(Parts(fs))
  {
    hide Clause, Trimmed;
    if fs != [] {
      ClauseIsTrimmed(fs[0].sql);
      PartsAreTrimmed(fs[1..]);
    }
  }

  lemma {:induction false} ClausesAreTrimmed<T>(parts: seq<Part<T>>, k: nat)
    requires PartsTrimmed(parts)
    ensures AllTrimmed(Clauses(parts, k)) && |Clauses(parts, k)| == |parts|
  {
    hide Trimmed, Offset;
    if parts != [] {
      assert parts[0] in parts && forall p :: p in parts[1..] ==> p in parts;
      OffsetTrimmed(parts[0].clause, k);
      OffsetStarts(parts[0].clause, k);
      ClausesAreTrimmed(parts[1..], k + |parts[0].params|);
    }
  }

  lemma GlueIsTrimmed(a: string, b: string)
    requires a != "" && b != "" && Trimmed(a) && Trimmed(b)
    ensures Glue(a, b) != "" && Trimmed(Glue(a, b))
  {
    hide IsSpace;
    var s := Glue(a, b);
    assert s[0] == a[0] && s[|s| - 1] == b[|b| - 1];
  }

  lemma {:induction false} JoinIsTrimmed(clauses: seq<string>)
    requires AllTrimmed(clauses)
    ensures Trimmed(Join(clauses)) && (clauses != [] ==> Join(clauses) != "")
  {
    hide Glue, IsSpace;
    if clauses != [] {
      assert clauses[0] in clauses && forall c :: c in clauses[1..] ==> c in clauses;
      if |clauses| > 1 {
        JoinIsTrimmed(clauses[1..]);
        GlueIsTrimmed(clauses[0], Join(clauses[1..]));
      }
    }
  }

  lemma OffsetOfGlue(a: string, b: string, j: nat)
    ensures Offset(Glue(a, b), j) == Glue(Offset(a, j), Offset(b, j))
  {
    hide Offset;
    Regroup(a, " AND ", b);
    OffsetApart(a, " AND " + b, j);
    assert " AND " + b == " AND" + ([' '] + b);
    OffsetApart(" AND", [' '] + b, j);
    CharFirst(' ', b);
    OffsetOfPlain(" AND", j);
    assert Offset(a, j) + (" AND" + ([' '] + Offset(b, j))) == Offset(a, j) + " AND " + Offset(b, j);
  }

  lemma {:induction false} OffsetOfPlain(s: string, k: nat)
    requires '$' !in s
    ensures Offset(s, k) == s
  {
    if s != "" {
      OffsetOfPlain(s[1..], k);
      assert s == [s[0]] + s[1..];
    }
  }

  lemma {:induction false} OffsetOfJoin<T>(parts: seq<Part<T>>, k: nat, j: nat)
    ensures Offset(Join(Clauses(parts, k)), j) == Join(Clauses(parts, k + j))
    decreases |parts|
  {
    hide Glue, Offset;
    if parts == [] {
      OffsetOfPlain("", j);
    } else {
      var next := k + |parts[0].params|;
      OffsetOfJoin(parts[1..], next, j);
      OffsetTwice(parts[0].clause, k, j);
      assert k + j + |parts[0].params| == next + j;
      var a, b := Offset(parts[0].clause, k), Clauses(parts[1..], next);
      assert ([a] + b)[1..] == b;
      assert ([Offset(a, j)] + Clauses(parts[1..], next + j))[1..] == Clauses(parts[1..], next + j);
      if b != [] { OffsetOfGlue(a, Join(b), j); }
    }
  }

  lemma GlueRegroups(a: string, b: string, c: string)
    ensures Glue(Glue(a, b), c) == Glue(a, Glue(b, c))
  {
  }

  lemma JoinOfTwo(first: string, rest: seq<string>)
    ensures Join([first] + rest) == if rest == [] then first else Glue(first, Join(rest))
  {
    hide Glue;
    assert ([first] + rest)[1..] == rest;
  }

  lemma {:induction false} JoinFirst(b: seq<string>, c: seq<string>)
    requires b != []
    ensures Join([Join(b)] + c) == Join(b + c)
    decreases |b|
  {
    hide Glue, Join;
    var first, rest := b[0], b[1..];
    assert b == [first] + rest;
    JoinOfTwo(first, rest);
    JoinOfTwo(Join(b), c);
    Regroup([first], rest, c);
    JoinOfTwo(first, rest + c);
    if rest != [] {
      JoinFirst(rest, c);
      JoinOfTwo(Join(rest), c);
      GlueRegroups(first, Join(rest), Join(c));
    } else {
      assert rest + c == c;
    }
  }

  lemma {:induction false} JoinNested(a: seq<string>, b: seq<string>, c: seq<string>)
    requires b != []
    ensures Join(a + ([Join(b)] + c)) == Join(a + (b + c))
    decreases |a|
  {
    hide Glue;
    JoinFirst(b, c);
    if a == [] {
      assert a + ([Join(b)] + c) == [Join(b)] + c && a + (b + c) == b + c;
    } else {
      JoinNested(a[1..], b, c);
      assert (a + ([Join(b)] + c))[1..] == a[1..] + ([Join(b)] + c);
      assert (a + (b + c))[1..] == a[1..] + (b + c);
    }
  }

  /** As a part, a combination gives one clause, the joined clauses of its own parts, and their parameters. */
  lemma PartOfCombined<T>(ys: seq<Fragment<T>>)
    ensures Parts([Combined(ys)])
            == if Parts(ys) == [] then [] else [Part(Join(Clauses(Parts(ys), 0)), Params(Parts(ys)))]
    ensures |Clauses(Parts(ys), 0)| == |Parts(ys)|
  {
    hide Clause, Offset, Trimmed, Glue;
    PartsAreTrimmed(ys);
    ClausesAreTrimmed(Parts(ys), 0);
    JoinIsTrimmed(Clauses(Parts(ys), 0));
    ClauseOfWhere(Join(Clauses(Parts(ys), 0)));
    OneFragment(Combined(ys));
  }

  /** Combining is associative: a combination can take the place of its parts anywhere in another. */
  lemma CombiningNests<T>(xs: seq<Fragment<T>>, ys: seq<Fragment<T>>, zs: seq<Fragment<T>>)
    ensures Combined(xs + [Combined(ys)] + zs) == Combined(xs + ys + zs)
  {
    hide Parts, Params, Clauses, Join, Offset;
    var a, b, c := Parts(xs), Parts(ys), Parts(zs);
    PartsApart(xs + [Combined(ys)], zs);
    PartsApart(xs, [Combined(ys)]);
    PartsApart(xs + ys, zs);
    PartsApart(xs, ys);
    PartOfCombined(ys);
    if b != [] {
      NestedParts(a, b, c);
    } else {
      assert a + [] + c == a + b + c;
    }
  }

  lemma NestedParts<T>(a: seq<Part<T>>, b: seq<Part<T>>, c: seq<Part<T>>)
    requires b != []
    ensures var nested := a + [Part(Join(Clauses(b, 0)), Params(b))] + c;
            Params(nested) == Params(a + b + c) && Join(Clauses(nested, 0)) == Join(Clauses(a + b + c, 0))
            && Clauses(nested, 0) != [] && Clauses(a + b + c, 0) != []
  {
    hide Join, Offset, Params;
    var part := Part(Join(Clauses(b, 0)), Params(b));
    var k := |Params(a)|;
    Apart(a + [part], c, 0);
    Apart(a, [part], 0);
    OnePart(part, k);
    OffsetOfJoin(b, 0, k);
    Apart(a + b, c, 0);
    Apart(a, b, 0);
    var rest := Clauses(c, k + |Params(b)|);
    JoinNested(Clauses(a, 0), Clauses(b, k), rest);
    Regroup(Clauses(a, 0), [Join(Clauses(b, k))], rest);
    Regroup(Clauses(a, 0), Clauses(b, k), rest);
  }

  // ----- binding

  function BoundToken<T>(token: Token, params: seq<T>): Piece<T> {
    match token
    case Char(c) => Text(c)
    case Slot(n) => if 1 <= n <= |params| then Value(params[n - 1]) else Unbound(n)
  }

  function Bound<T>(tokens: seq<Token>, params: seq<T>): seq<Piece<T>> {
    if tokens == [] then [] else [BoundToken(tokens[0], params)] + Bound(tokens[1..], params)
  }

  function Bind<T>(sql: string, params: seq<T>): seq<Piece<T>> { Bound(Lex(sql), params) }

  ghost predicate SlotsIn(tokens: seq<Token>, from: nat, to: nat) {
    forall t :: t in tokens && t.Slot? ==> from <= t.number <= to
  }

  /** All placeholders have a parameter. */
  ghost predicate InRange(sql: string, n: nat) { SlotsIn(Lex(sql), 1, n) }

  function Chars<T>(s: string): seq<Piece<T>> {
    if s == "" then [] else [Text(s[0])] + Chars(s[1..])
  }

  function GlueBound<T>(a: seq<Piece<T>>, b: seq<Piece<T>>): seq<Piece<T>> { a + Chars(" AND ") + b }

  function JoinBound<T>(clauses: seq<seq<Piece<T>>>): seq<Piece<T>> {
    if clauses == [] then [] else if |clauses| == 1 then clauses[0] else GlueBound(clauses[0], JoinBound(clauses[1..]))
  }

  /** The clauses, each bound with its own parameters. */
  function BoundParts<T>(parts: seq<Part<T>>): seq<seq<Piece<T>>> {
    if parts == [] then [] else [Bind(parts[0].clause, parts[0].params)] + BoundParts(parts[1..])
  }

  ghost predicate AllInRange<T>(parts: seq<Part<T>>) {
    forall p :: p in parts ==> InRange(p.clause, |p.params|)
  }

  lemma {:induction false} BoundApart<T>(a: seq<Token>, b: seq<Token>, params: seq<T>)
    ensures Bound(a + b, params) == Bound(a, params) + Bound(b, params)
  {
    if a == [] {
      assert a + b == b;
    } else {
      assert (a + b)[1..] == a[1..] + b;
      BoundApart(a[1..], b, params);
    }
  }

  /** A shifted clause finds its own parameters where its fragment's have been put. */
  lemma {:induction false} BoundShifted<T>(tokens: seq<Token>, before: seq<T>, own: seq<T>, after: seq<T>)
    requires SlotsIn(tokens, 1, |own|)
    ensures Bound(Shifted(tokens, |before|), before + own + after) == Bound(tokens, own)
    ensures SlotsIn(Shifted(tokens, |before|), 1, |before| + |own|)
  {
    hide BoundToken;
    if tokens != [] {
      assert tokens[0] in tokens && forall t :: t in tokens[1..] ==> t in tokens;
      BoundShifted(tokens[1..], before, own, after);
      TokenShifted(tokens[0], before, own, after);
      assert Shifted(tokens, |before|)[1..] == Shifted(tokens[1..], |before|);
    }
  }

  lemma TokenShifted<T>(t: Token, before: seq<T>, own: seq<T>, after: seq<T>)
    requires t.Slot? ==> 1 <= t.number <= |own|
    ensures BoundToken(if t.Slot? then Slot(t.number + |before|) else t, before + own + after) == BoundToken(t, own)
  {
    if t.Slot? { assert (before + own + after)[t.number + |before| - 1] == own[t.number - 1]; }
  }

  lemma {:induction false} PlainIsCopied<T>(s: string, params: seq<T>)
    requires '$' !in s
    ensures Bound(Lex(s), params) == Chars(s)
    ensures forall t :: t in Lex(s) ==> t.Char?
  {
    if s != "" {
      PlainIsCopied(s[1..], params);
      assert Lex(s) == [Char(s[0])] + Lex(s[1..]);
      assert Lex(s)[1..] == Lex(s[1..]);
    }
  }

  /** A text that ends with a space is lexed apart from what follows it. */
  lemma LexAfterSpace(a: string, b: string)
    requires a != "" && a[|a| - 1] == ' '
    ensures Lex(a + b) == Lex(a) + Lex(b)
  {
    hide Lex;
    var c := a[..|a| - 1];
    assert a == c + [' '] && a + b == c + ([' '] + b) && a == c + ([' '] + "");
    LexApart(c, [' '] + b);
    LexApart(c, [' '] + "");
    CharFirst(' ', b);
    CharFirst(' ', "");
    NothingToLex();
    assert Lex(a) == Lex(c) + [Char(' ')];
    assert Lex(c) + ([Char(' ')] + Lex(b)) == Lex(c) + [Char(' ')] + Lex(b);
  }

  lemma NothingToLex()
    ensures Lex("") == []
  {
  }

  lemma LexOfGlue(a: string, b: string)
    ensures Lex(Glue(a, b)) == Lex(a) + Lex(" AND ") + Lex(b)
  {
    hide Lex;
    LexAfterSpace(a + " AND ", b);
    LexApart(a, " AND ");
  }

  lemma BindOfGlue<T>(a: string, b: string, params: seq<T>)
    ensures Bind(Glue(a, b), params) == GlueBound(Bind(a, params), Bind(b, params))
    ensures forall n: nat :: InRange(a, n) && InRange(b, n) ==> InRange(Glue(a, b), n)
  {
    LexOfGlue(a, b);
    hide Lex, Glue, Bound, Chars;
    PlainIsCopied(" AND ", params);
    BoundApart(Lex(a) + Lex(" AND "), Lex(b), params);
    BoundApart(Lex(a), Lex(" AND "), params);
  }

  /** The first part, shifted and bound where it stands, and what is left for the others. */
  lemma FirstPart<T>(parts: seq<Part<T>>, before: seq<T>, after: seq<T>)
    requires AllInRange(parts) && parts != []
    ensures var part, rest, next := parts[0], parts[1..], before + parts[0].params;
            Clauses(parts, |before|) == [Offset(part.clause, |before|)] + Clauses(rest, |next|)
            && BoundParts(parts) == [Bind(part.clause, part.params)] + BoundParts(rest)
            && before + Params(parts) + after == next + Params(rest) + after
            && |before| + |Params(parts)| == |next| + |Params(rest)|
            && Bind(Offset(part.clause, |before|), before + Params(parts) + after) == Bind(part.clause, part.params)
            && InRange(Offset(part.clause, |before|), |before| + |Params(parts)|)
            && AllInRange(rest)
  {
    hide *;
    var part, rest := parts[0], parts[1..];
    RestInRange(parts);
    PartsUnfold(parts, |before|);
    SameParams(before, part.params, Params(rest), after);
    BindOfFirst(part, before, Params(rest) + after);
    WiderRange(Offset(part.clause, |before|), |before| + |part.params|, |before| + |Params(parts)|);
  }

  lemma RestInRange<T>(parts: seq<Part<T>>)
    requires AllInRange(parts) && parts != []
    ensures AllInRange(parts[1..]) && InRange(parts[0].clause, |parts[0].params|)
  {
    hide InRange;
    assert parts[0] in parts && forall p :: p in parts[1..] ==> p in parts;
  }

  lemma PartsUnfold<T>(parts: seq<Part<T>>, k: nat)
    requires parts != []
    ensures var part, rest := parts[0], parts[1..];
            Clauses(parts, k) == [Offset(part.clause, k)] + Clauses(rest, k + |part.params|)
            && BoundParts(parts) == [Bind(part.clause, part.params)] + BoundParts(rest)
            && Params(parts) == part.params + Params(rest)
  {
    hide Offset, Bind;
  }

  /** The joined clauses bind what the clauses bind apart, and every placeholder is in range. */
  lemma {:induction false} BindOfJoin<T>(parts: seq<Part<T>>, before: seq<T>, after: seq<T>)
    requires AllInRange(parts) && parts != []
    ensures Bind(Join(Clauses(parts, |before|)), before + Params(parts) + after) == JoinBound(BoundParts(parts))
    ensures InRange(Join(Clauses(parts, |before|)), |before| + |Params(parts)|)
    ensures |Clauses(parts, |before|)| == |BoundParts(parts)| == |parts|
    decreases |parts|
  {
    hide *;
    FirstPart(parts, before, after);
    var part, rest, next := parts[0], parts[1..], before + parts[0].params;
    var shifted, others := Offset(part.clause, |before|), Clauses(rest, |next|);
    if rest == [] {
      NoClauses<T>(|next|);
      JoinOfTwo(shifted, others);
      JoinBoundOfTwo(Bind(part.clause, part.params), BoundParts(rest));
    } else {
      BindOfJoin(rest, next, after);
      FirstAndRest(shifted, others, Bind(part.clause, part.params), BoundParts(rest),
                   before + Params(parts) + after, |before| + |Params(parts)|);
    }
  }

  lemma NoClauses<T>(k: nat)
    ensures Clauses<T>([], k) == [] && BoundParts<T>([]) == []
  {
  }

  lemma FirstAndRest<T>(
      first: string, others: seq<string>, bound: seq<Piece<T>>, bounds: seq<seq<Piece<T>>>, params: seq<T>, n: nat)
    requires |others| == |bounds| > 0
    requires Bind(first, params) == bound && Bind(Join(others), params) == JoinBound(bounds)
    requires InRange(first, n) && InRange(Join(others), n)
    ensures Bind(Join([first] + others), params) == JoinBound([bound] + bounds) && InRange(Join([first] + others), n)
  {
    hide *;
    JoinOfTwo(first, others);
    JoinBoundOfTwo(bound, bounds);
    BindOfGlue(first, Join(others), params);
  }

  lemma JoinBoundOfTwo<T>(first: seq<Piece<T>>, rest: seq<seq<Piece<T>>>)
    ensures JoinBound([first] + rest) == if rest == [] then first else GlueBound(first, JoinBound(rest))
  {
    hide GlueBound;
    assert ([first] + rest)[1..] == rest;
  }

  lemma SameParams<T>(before: seq<T>, own: seq<T>, rest: seq<T>, after: seq<T>)
    ensures before + own + (rest + after) == before + (own + rest) + after
    ensures before + own + rest + after == before + (own + rest) + after
  {
  }

  lemma WiderRange(sql: string, n: nat, m: nat)
    requires InRange(sql, n) && n <= m
    ensures InRange(sql, m)
  {
  }

  lemma BindOfFirst<T>(part: Part<T>, before: seq<T>, after: seq<T>)
    requires InRange(part.clause, |part.params|)
    ensures Bind(Offset(part.clause, |before|), before + part.params + after) == Bind(part.clause, part.params)
    ensures InRange(Offset(part.clause, |before|), |before| + |part.params|)
  {
    hide Lex, Offset, Bound;
    LexOfOffset(part.clause, |before|);
    BoundShifted(Lex(part.clause), before, part.params, after);
  }

  /** The combined statement binds, under one WHERE, each fragment's clause with the fragment's own parameters. */
  lemma CombinedBindsEachApart<T>(fs: seq<Fragment<T>>)
    requires AllInRange(Parts(fs))
    ensures var combined := Combined(fs);
            Bind(combined.sql, combined.params)
            == if Parts(fs) == [] then [] else Chars("WHERE ") + JoinBound(BoundParts(Parts(fs)))
    ensures InRange(Combined(fs).sql, |Combined(fs).params|)
  {
    hide Parts, Join, Glue, Offset;
    var parts := Parts(fs);
    if parts == [] {
      NothingToLex();
    } else {
      BindOfJoin(parts, [], []);
      assert [] + Params(parts) + [] == Params(parts);
      BindOfWhere(Join(Clauses(parts, 0)), Params(parts));
    }
  }

  lemma BindOfWhere<T>(clause: string, params: seq<T>)
    ensures Bind("WHERE " + clause, params) == Chars("WHERE ") + Bind(clause, params)
    ensures forall n: nat :: InRange(clause, n) ==> InRange("WHERE " + clause, n)
  {
    hide Lex, Bound, Chars;
    LexAfterSpace("WHERE ", clause);
    PlainIsCopied("WHERE ", params);
    BoundApart(Lex("WHERE "), Lex(clause), params);
  }

  // ----- equality filters

  datatype Filter<T> = Filter(key: int, value: Option<T>)

  /** The filter has a value and an allowed column. */
  predicate IsUsed<T>(f: Filter<T>, allowed: map<int, string>) {
    f.value.Some? && f.key in allowed && allowed[f.key] != ""
  }

  /** One comparison for each filter that is used, numbered on from `k`, and their values. */
  function Comparisons<T>(filters: seq<Filter<T>>, allowed: map<int, string>, k: nat): seq<string> {
    if filters == [] then []
    else if IsUsed(filters[0], allowed)
    then [allowed[filters[0].key] + " = $" + Decimal(k + 1)] + Comparisons(filters[1..], allowed, k + 1)
    else Comparisons(filters[1..], allowed, k)
  }

  function Values<T>(filters: seq<Filter<T>>, allowed: map<int, string>): seq<T> {
    if filters == [] then []
    else (if IsUsed(filters[0], allowed) then [filters[0].value.value] else []) + Values(filters[1..], allowed)
  }

  function EqualityFilter<T>(filters: seq<Filter<T>>, allowed: map<int, string>): Fragment<T> {
    Under(Comparisons(filters, allowed, 0), Values(filters, allowed))
  }

  /** The used filters as fragments of their own. */
  function Singles<T>(filters: seq<Filter<T>>, allowed: map<int, string>): seq<Fragment<T>> {
    if filters == [] then []
    else
      var f := filters[0];
      (if IsUsed(f, allowed) then [Fragment(allowed[f.key] + " = $1", [f.value.value])] else [])
      + Singles(filters[1..], allowed)
  }

  /** A column name: no placeholder, no space around it, and not the start of a WHERE. */
  predicate IsColumn(column: string) {
    column != "" && '$' !in column && !IsSpace(column[0]) && StripWhere(column + " = $1") == column + " = $1"
  }

  lemma ColumnClause(column: string, k: nat)
    requires IsColumn(column)
    ensures Clause(column + " = $1") == column + " = $1"
    ensures Offset(column + " = $1", k) == column + " = $" + Decimal(1 + k)
  {
    OffsetOfColumn(column, k);
    hide StripWhere, Offset;
    var sql := column + " = $1";
    assert sql[0] == column[0] && sql[|sql| - 1] == '1';
    assert TrimLeft(sql) == sql && TrimRight(sql) == sql;
  }

  lemma OffsetOfColumn(column: string, k: nat)
    requires '$' !in column
    ensures Offset(column + " = $1", k) == column + " = $" + Decimal(1 + k)
  {
    hide Offset, Decimal, Number;
    var slot := "$" + "1" + "";
    assert column + " = $1" == (column + " = ") + slot;
    OffsetOfPlain(column + " = ", k);
    OffsetApart(column + " = ", slot, k);
    OneIsOne();
    SlotFirst("1", "");
    OffsetOfPlain("", k);
    assert (column + " = ") + ("$" + Decimal(1 + k) + "") == column + " = $" + Decimal(1 + k);
  }

  lemma OneIsOne()
    ensures AllDigits("1") && Number("1") == 1
  {
    assert "1"[..0] == "";
  }

  lemma SinglesFirst<T>(filters: seq<Filter<T>>, allowed: map<int, string>)
    requires filters != [] && IsUsed(filters[0], allowed)
    requires IsColumn(allowed[filters[0].key])
    ensures var f := filters[0];
            Parts(Singles(filters, allowed))
            == [Part(allowed[f.key] + " = $1", [f.value.value])] + Parts(Singles(filters[1..], allowed))
  {
    hide Clause, IsColumn;
    var f := filters[0];
    var single := Fragment(allowed[f.key] + " = $1", [f.value.value]);
    assert Singles(filters, allowed) == [single] + Singles(filters[1..], allowed);
    PartsApart([single], Singles(filters[1..], allowed));
    OneFragment(single);
    ColumnClause(allowed[f.key], 0);
  }

  lemma {:induction false} SinglesAreComparisons<T>(filters: seq<Filter<T>>, allowed: map<int, string>, k: nat)
    requires forall key :: key in allowed && allowed[key] != "" ==> IsColumn(allowed[key])
    ensures Clauses(Parts(Singles(filters, allowed)), k) == Comparisons(filters, allowed, k)
    ensures Params(Parts(Singles(filters, allowed))) == Values(filters, allowed)
    decreases |filters|
  {
    hide IsColumn, Offset, Decimal, Clause;
    if filters == [] {
      assert Parts(Singles(filters, allowed)) == [];
    } else {
      var f, rest := filters[0], filters[1..];
      if IsUsed(f, allowed) {
        SinglesAreComparisons(rest, allowed, k + 1);
        SinglesFirst(filters, allowed);
        ColumnClause(allowed[f.key], k);
        var parts := Parts(Singles(filters, allowed));
        assert parts[1..] == Parts(Singles(rest, allowed));
      } else {
        SinglesAreComparisons(rest, allowed, k);
        assert Singles(filters, allowed) == [] + Singles(rest, allowed) == Singles(rest, allowed);
      }
    }
  }

  /** For column names the filter is the combination of its single comparisons, so it binds each column's own value. */
  lemma EqualityIsCombined<T>(filters: seq<Filter<T>>, allowed: map<int, string>)
    requires forall key :: key in allowed && allowed[key] != "" ==> IsColumn(allowed[key])
    ensures EqualityFilter(filters, allowed) == Combined(Singles(filters, allowed))
  {
    hide IsColumn, Clauses, Parts, Singles, Params, Comparisons, Values, Join;
    SinglesAreComparisons(filters, allowed, 0);
  }

  lemma {:induction false} OneMoreFilter<T>(filters: seq<Filter<T>>, f: Filter<T>, allowed: map<int, string>, k: nat)
    ensures Values(filters + [f], allowed) == Values(filters, allowed)
            + if IsUsed(f, allowed) then [f.value.value] else []
    ensures Comparisons(filters + [f], allowed, k) == Comparisons(filters, allowed, k)
            + if IsUsed(f, allowed) then [allowed[f.key] + " = $" + Decimal(k + |Values(filters, allowed)| + 1)] else []
    decreases |filters|
  {
    hide Decimal;
    if filters == [] {
      assert filters + [f] == [f] && [f][1..] == [];
    } else {
      var first := filters[0];
      assert (filters + [f])[1..] == filters[1..] + [f] && (filters + [f])[0] == first;
      OneMoreFilter(filters[1..], f, allowed, if IsUsed(first, allowed) then k + 1 else k);
    }
  }

  method CreateEqualityFilterFragment<T>(filters: seq<Filter<T>>, allowed: map<int, string>) returns (r: Fragment<T>)
    ensures r == EqualityFilter(filters, allowed)
  {
    hide Decimal, Join, Values, Comparisons;
    var params: seq<T> := [];
    var clauses: seq<string> := [];
    NoFilters<T>(allowed);
    for i := 0 to |filters|
      invariant params == Values(filters[..i], allowed) && clauses == Comparisons(filters[..i], allowed, 0)
    {
      var f := filters[i];
      assert filters[..i + 1] == filters[..i] + [f];
      OneMoreFilter(filters[..i], f, allowed, 0);
      if f.value.None? || f.key !in allowed || allowed[f.key] == "" {
        continue;
      }
      params := params + [f.value.value];
      clauses := clauses + [allowed[f.key] + " = $" + Decimal(|params|)];
    }
    assert filters[..|filters|] == filters;
    r := Fragment(if |clauses| > 0 then "WHERE " + Join(clauses) else "", params);
  }

  lemma NoFilters<T>(allowed: map<int, string>)
    ensures Values<T>([], allowed) == [] && Comparisons<T>([], allowed, 0) == []
  {
  }

  // ----- search

  const LIKE := " ILIKE $1"
  const OR := " OR "

  function SearchClauses(columns: seq<string>): string {
    if columns == [] then ""
    else if |columns| == 1 then columns[0] + LIKE
    else columns[0] + LIKE + OR + SearchClauses(columns[1..])
  }

  /**
   `createSearchFragment`: one parenthesised clause for all columns; `query` is the trimmed query with its wildcards.
   */
  function SearchFragment<T>(columns: seq<string>, query: Option<T>): Fragment<T> {
    if query.None? || columns == [] then Fragment("", [])
    else Fragment("(" + SearchClauses(columns) + ")", [query.value])
  }

  /** One column compared with the query, and all of them. */
  function Compared<T>(column: string, query: T): seq<Piece<T>> { Chars(column) + Chars(" ILIKE ") + [Value(query)] }

  function ComparedAll<T>(columns: seq<string>, query: T): seq<Piece<T>> {
    if columns == [] then []
    else if |columns| == 1 then Compared(columns[0], query)
    else Compared(columns[0], query) + Chars(OR) + ComparedAll(columns[1..], query)
  }

  /** A text binds, with one parameter, to these pieces and has no other placeholder. */
  ghost predicate BindsOne<T>(sql: string, query: T, pieces: seq<Piece<T>>) {
    Bind(sql, [query]) == pieces && InRange(sql, 1)
  }

  lemma PlainThen<T>(plain: string, rest: string, query: T, pieces: seq<Piece<T>>)
    requires '$' !in plain && BindsOne(rest, query, pieces)
    requires Lex(plain + rest) == Lex(plain) + Lex(rest)
    ensures BindsOne(plain + rest, query, Chars(plain) + pieces)
  {
    hide Lex, Bound, Chars;
    PlainIsCopied(plain, [query]);
    BoundApart(Lex(plain), Lex(rest), [query]);
  }

  lemma LikeThen<T>(rest: string, query: T, pieces: seq<Piece<T>>)
    requires StartsApart(rest) && BindsOne(rest, query, pieces)
    ensures BindsOne(LIKE + rest, query, Chars(" ILIKE ") + ([Value(query)] + pieces))
  {
    hide Lex, Chars, Bound;
    var slot := "$" + "1" + rest;
    assert LIKE + rest == " ILIKE " + slot;
    SlotThen(rest, query, pieces);
    LexAfterSpace(" ILIKE ", slot);
    PlainThen(" ILIKE ", slot, query, [Value(query)] + pieces);
  }

  lemma SlotThen<T>(rest: string, query: T, pieces: seq<Piece<T>>)
    requires StartsApart(rest) && BindsOne(rest, query, pieces)
    ensures BindsOne("$" + "1" + rest, query, [Value(query)] + pieces)
  {
    hide Lex;
    OneIsOne();
    SlotFirst("1", rest);
    BoundApart([Slot(1)], Lex(rest), [query]);
    assert Bound([Slot(1)], [query]) == [Value(query)] by { assert [Slot(1)][1..] == []; }
  }

  lemma ColumnLike<T>(column: string, rest: string, query: T, pieces: seq<Piece<T>>)
    requires '$' !in column && StartsApart(rest) && BindsOne(rest, query, pieces)
    ensures BindsOne(column + (LIKE + rest), query, Compared(column, query) + pieces)
  {
    hide Lex, Chars, BindsOne;
    LikeThen(rest, query, pieces);
    LexApart(column, LIKE + rest);
    PlainThen(column, LIKE + rest, query, Chars(" ILIKE ") + ([Value(query)] + pieces));
    assert Chars(column) + (Chars(" ILIKE ") + ([Value(query)] + pieces)) == Compared(column, query) + pieces;
  }

  lemma {:induction false} SearchBinds<T>(columns: seq<string>, rest: string, query: T, pieces: seq<Piece<T>>)
    requires (forall c :: c in columns ==> '$' !in c) && columns != [] && StartsApart(rest)
             && BindsOne(rest, query, pieces)
    ensures BindsOne(SearchClauses(columns) + rest, query, ComparedAll(columns, query) + pieces)
    decreases |columns|
  {
    hide Lex, BindsOne, Compared, ComparedAll, SearchClauses, Chars;
    var column, others := columns[0], columns[1..];
    assert column in columns && forall c :: c in others ==> c in columns;
    SearchUnfolds(columns, rest, query, pieces);
    if others == [] {
      ColumnLike(column, rest, query, pieces);
    } else {
      SearchBinds(others, rest, query, pieces);
      ColumnThenOthers(column, SearchClauses(others) + rest, query, ComparedAll(others, query) + pieces);
    }
  }

  lemma SearchUnfolds<T>(columns: seq<string>, rest: string, query: T, pieces: seq<Piece<T>>)
    requires columns != []
    ensures var column, others := columns[0], columns[1..];
            && SearchClauses(columns) + rest
            == column + (LIKE + if others == [] then rest else OR + (SearchClauses(others) + rest))
            && ComparedAll(columns, query) + pieces
            == Compared(column, query)
               + if others == [] then pieces else Chars(OR) + (ComparedAll(others, query) + pieces)
  {
    hide Compared, Chars;
    var column, others := columns[0], columns[1..];
    if others == [] {
      Regroup(column, LIKE, rest);
    } else {
      assert SearchClauses(columns) == column + LIKE + OR + SearchClauses(others);
      assert column + LIKE + OR + SearchClauses(others) + rest
             == column + (LIKE + (OR + (SearchClauses(others) + rest)));
      Regroup(Compared(column, query) + Chars(OR), ComparedAll(others, query), pieces);
      Regroup(Compared(column, query), Chars(OR), ComparedAll(others, query) + pieces);
    }
  }

  lemma ColumnThenOthers<T>(column: string, others: string, query: T, pieces: seq<Piece<T>>)
    requires '$' !in column && BindsOne(others, query, pieces)
    ensures BindsOne(column + (LIKE + (OR + others)), query, Compared(column, query) + (Chars(OR) + pieces))
  {
    hide Lex, BindsOne, Compared, Chars;
    LexAfterSpace(OR, others);
    PlainThen(OR, others, query, pieces);
    ColumnLike(column, OR + others, query, Chars(OR) + pieces);
  }

  /** The search fragment compares every column with the one query, in one pair of parentheses. */
  lemma SearchFragmentBinds<T>(columns: seq<string>, query: T)
    requires (forall c :: c in columns ==> '$' !in c) && columns != []
    ensures var f := SearchFragment(columns, Some(query));
            && Clause(f.sql) == f.sql && InRange(f.sql, |f.params|)
            && Bind(f.sql, f.params) == Chars("(") + ComparedAll(columns, query) + Chars(")")
  {
    var inner := SearchClauses(columns) + ")";
    assert BindsOne(")", query, Chars(")")) by { PlainIsCopied(")", [query]); }
    hide Lex, SearchClauses, ComparedAll, Chars, BindsOne;
    OpenFirst(inner);
    SearchBinds(columns, ")", query, Chars(")"));
    PlainThen("(", inner, query, ComparedAll(columns, query) + Chars(")"));
    assert "(" + SearchClauses(columns) + ")" == "(" + inner;
    assert Chars("(") + (ComparedAll(columns, query) + Chars(")"))
           == Chars("(") + ComparedAll(columns, query) + Chars(")");
    ParenthesisedClause("(" + inner);
    assert BindsOne("(" + inner, query, Chars("(") + ComparedAll(columns, query) + Chars(")"));
    BindsOneIs("(" + inner, query, Chars("(") + ComparedAll(columns, query) + Chars(")"));
  }

  lemma OpenFirst(rest: string)
    ensures Lex("(" + rest) == Lex("(") + Lex(rest)
  {
    CharFirst('(', rest);
    CharFirst('(', "");
    NothingToLex();
    assert ['('] + rest == "(" + rest && ['('] + "" == "(";
  }

  lemma BindsOneIs<T>(sql: string, query: T, pieces: seq<Piece<T>>)
    requires BindsOne(sql, query, pieces)
    ensures Bind(sql, [query]) == pieces && InRange(sql, |[query]|)
  {
  }

  lemma ParenthesisedClause(s: string)
    requires s != "" && s[0] == '(' && s[|s| - 1] == ')'
    ensures Clause(s) == s
  {
  }
}
