/**
 Rewriting PostgreSQL `$n` placeholders to SQLite's `?n`, leaving quoted text, identifiers and comments alone.
 */
module Placeholders {
  import opened Texts

  datatype State = Sql | LineComment | BlockComment | SingleQuote | DoubleQuote | TickIdentifier | BracketIdentifier

  /** The lexical state before a character; `skip` marks the second character of a two-character token. */
  datatype Lexer = Lexer(state: State, depth: int, skip: bool)

  const START := Lexer(Sql, 0, false)

  predicate Quoting(state: State) {
    state.SingleQuote? || state.DoubleQuote? || state.TickIdentifier? || state.BracketIdentifier?
  }

  function Opening(c: char): State {
    if c == '\'' then SingleQuote
    else if c == '"' then DoubleQuote
    else if c == '`' then TickIdentifier
    else if c == '[' then BracketIdentifier
    else Sql
  }

  function Closing(state: State): char {
    match state
    case SingleQuote => '\''
    case DoubleQuote => '"'
    case TickIdentifier => '`'
    case _ => ']'
  }

  predicate At(query: string, i: int, c: char) {
    0 <= i < |query| && query[i] == c
  }

  /** The state after character `i`, which may depend on the character that follows. */
  function Advance(lexer: Lexer, query: string, i: nat): Lexer
    requires i < |query|
  {
    var c := query[i];
    if lexer.skip then lexer.(skip := false)
    else if lexer.state.LineComment? then if c == '\n' || c == '\r' then lexer.(state := Sql) else lexer
    else if lexer.state.BlockComment? then
      if c == '/' && At(query, i + 1, '*') then lexer.(depth := lexer.depth + 1, skip := true)
      else if c == '*' && At(query, i + 1, '/') then
        Lexer(if lexer.depth == 1 then Sql else BlockComment, lexer.depth - 1, true)
      else lexer
    else if Quoting(lexer.state) then
      if c != Closing(lexer.state) then lexer
      else if At(query, i + 1, c) then lexer.(skip := true)
      else lexer.(state := Sql)
    else if c == '-' && At(query, i + 1, '-') then lexer.(state := LineComment, skip := true)
    else if c == '/' && At(query, i + 1, '*') then Lexer(BlockComment, 1, true)
    else lexer.(state := Opening(c))
  }

  function Lex(query: string, i: nat): Lexer
    requires i <= |query|
  {
    if i == 0 then START else Advance(Lex(query, i - 1), query, i - 1)
  }

  predicate IsPlaceholder(query: string, i: nat)
    requires i < |query|
  {
    Lex(query, i).state.Sql? && !Lex(query, i).skip && query[i] == '$' && i + 1 < |query| && IsDigit(query[i + 1])
  }

  /** The converted query, position by position. */
  function Converted(query: string): (r: string)
    ensures |r| == |query|
    ensures forall i :: 0 <= i < |query| ==> r[i] == if IsPlaceholder(query, i) then '?' else query[i]
  {
    seq(|query|, i requires 0 <= i < |query| => if IsPlaceholder(query, i) then '?' else query[i])
  }

  // ----- the conversion loop

  /** The loop of the source: it copies one token at a time and rewrites placeholders. */
  method Convert(query: string) returns (converted: string)
    ensures converted == Converted(query)
  {
    hide Lex, Converted, IsPlaceholder;
    converted := "";
    var index := 0;
    var state := Sql;
    var depth := 0;
    LexStarts(query);
    while index < |query|
      invariant 0 <= index <= |query|
      invariant converted == Converted(query)[..index]
      invariant Lex(query, index) == Lexer(state, depth, false)
    {
      var c := query[index];
      var next := index + 1;
      OneStep(query, index, Lexer(state, depth, false));
      if state == LineComment {
        converted, index := converted + [c], next;
        if c == '\n' || c == '\r' { state := Sql; }
      } else if state == BlockComment {
        if c == '/' && At(query, next, '*') {
          PairStep(query, index);
          converted, index, depth := converted + "/*", index + 2, depth + 1;
        } else if c == '*' && At(query, next, '/') {
          PairStep(query, index);
          converted, index, depth := converted + "*/", index + 2, depth - 1;
          if depth == 0 { state := Sql; }
        } else {
          converted, index := converted + [c], next;
        }
      } else if state != Sql {
        var closing := Closing(state);
        if c == closing && At(query, next, closing) {
          PairStep(query, index);
          converted, index := converted + [c, closing], index + 2;
        } else {
          converted, index := converted + [c], next;
          if c == closing { state := Sql; }
        }
      } else if c == '-' && At(query, next, '-') {
        PairStep(query, index);
        converted, index, state := converted + "--", index + 2, LineComment;
      } else if c == '/' && At(query, next, '*') {
        PairStep(query, index);
        converted, index, state, depth := converted + "/*", index + 2, BlockComment, 1;
      } else if Opening(c) != Sql {
        converted, index, state := converted + [c], next, Opening(c);
      } else if c == '$' && next < |query| && IsDigit(query[next]) {
        var end := index + 2;
        while end < |query| && IsDigit(query[end])
          invariant index + 2 <= end <= |query|
          invariant forall k :: index < k < end ==> IsDigit(query[k])
        {
          end := end + 1;
        }
        DigitsStayInSql(query, index, end);
        converted, index := converted + ['?'] + query[next..end], end;
      } else {
        converted, index := converted + [c], next;
      }
    }
  }

  lemma LexStarts(query: string)
    ensures Lex(query, 0) == START
  {
  }

  /** One character of the query: the state after it, and what is written for it. */
  lemma OneStep(query: string, i: nat, lexer: Lexer)
    requires i < |query| && Lex(query, i) == lexer
    ensures Lex(query, i + 1) == Advance(lexer, query, i)
    ensures !(lexer.state.Sql? && !lexer.skip && query[i] == '$' && i + 1 < |query| && IsDigit(query[i + 1])) ==>
      Converted(query)[..i + 1] == Converted(query)[..i] + [query[i]]
  {
  }

  /** The second character of a two-character token is copied and changes nothing. */
  lemma PairStep(query: string, i: nat)
    requires i + 1 < |query| && Advance(Lex(query, i), query, i).skip && query[i] != '$'
    ensures Lex(query, i + 2) == Lex(query, i + 1).(skip := false)
    ensures Converted(query)[..i + 2] == Converted(query)[..i] + [query[i], query[i + 1]]
  {
  }

  /** In plain SQL a digit, or a `$` that begins a placeholder, leaves the state as it is. */
  lemma SqlStep(query: string, k: nat)
    requires k < |query| && Lex(query, k).state.Sql? && !Lex(query, k).skip && (IsDigit(query[k]) || query[k] == '$')
    ensures Lex(query, k + 1) == Lex(query, k)
    ensures IsDigit(query[k]) ==> !IsPlaceholder(query, k)
  {
    assert Lex(query, k + 1) == Advance(Lex(query, k), query, k);
  }

  lemma DigitsStayInSql(query: string, i: nat, end: nat)
    requires i + 1 < end <= |query| && Lex(query, i).state.Sql? && !Lex(query, i).skip && query[i] == '$'
    requires forall k :: i < k < end ==> IsDigit(query[k])
    ensures Lex(query, end) == Lex(query, i)
    ensures Converted(query)[..end] == Converted(query)[..i] + ['?'] + query[i + 1..end]
  {
    hide Lex, Advance, Converted;
    var r := Converted(query);
    SqlStep(query, i);
    assert IsPlaceholder(query, i);
    for k := i + 1 to end
      invariant Lex(query, k) == Lex(query, i)
      invariant r[..k] == r[..i] + ['?'] + query[i + 1..k]
    {
      SqlStep(query, k);
      assert r[..k + 1] == r[..k] + [query[k]];
    }
  }

  // ----- what conversion does to a query

  /** At every position the converted query is in the lexical state of the original. */
  lemma {:induction false} ConvertedLexesAlike(query: string, i: nat)
    requires i <= |query|
    ensures Lex(Converted(query), i) == Lex(query, i)
  {
    if i > 0 {
      ConvertedLexesAlike(query, i - 1);
      var r, k := Converted(query), i - 1;
      assert r[k] != query[k] ==> query[k] == '$' && r[k] == '?' && Lex(query, k).state.Sql? && !Lex(query, k).skip;
      assert i < |query| ==> r[i] == query[i] || (query[i] == '$' && r[i] == '?');
    }
  }

  /** Converting twice is converting once. */
  lemma ConvertIsIdempotent(query: string)
    ensures Converted(Converted(query)) == Converted(query)
  {
    var r := Converted(query);
    forall i: nat | i < |r| ensures !IsPlaceholder(r, i) {
      ConvertedLexesAlike(query, i);
    }
  }

  // ----- the token grammar the lexer stands for

  /** From a point in plain SQL the lexer works on the rest of the query as on a query of its own. */
  lemma {:induction false} LexResumes(query: string, n: nat, i: nat)
    requires n + i <= |query| && Lex(query, n) == START
    ensures Lex(query, n + i) == Lex(query[n..], i)
  {
    if i > 0 {
      LexResumes(query, n, i - 1);
    }
  }

  lemma PlaceholderResumes(query: string, n: nat, i: nat)
    requires n + i < |query| && Lex(query, n) == START
    ensures IsPlaceholder(query, n + i) == IsPlaceholder(query[n..], i)
  {
    hide Lex;
    LexResumes(query, n, i);
  }

  lemma ConvertedResumes(query: string, n: nat)
    requires n <= |query| && Lex(query, n) == START
    ensures Converted(query)[n..] == Converted(query[n..])
  {
    hide Converted, Lex, IsPlaceholder;
    forall i | 0 <= i < |query| - n ensures Converted(query)[n..][i] == Converted(query[n..])[i] {
      PlaceholderResumes(query, n, i);
      assert query[n..][i] == query[n + i];
    }
  }

  /** A first token of `n` characters without a placeholder is copied, and the rest is converted by itself. */
  lemma CopiesToken(query: string, n: nat)
    requires 0 < n <= |query| && Lex(query, n) == START
    requires forall i: nat :: i < n ==> !IsPlaceholder(query, i)
    ensures Converted(query) == query[..n] + Converted(query[n..])
  {
    hide Converted, Lex, IsPlaceholder;
    ConvertedResumes(query, n);
    forall i | 0 <= i < n ensures Converted(query)[..n][i] == query[..n][i] {
      assert !IsPlaceholder(query, i);
    }
    assert Converted(query)[..n] == query[..n];
    assert Converted(query) == Converted(query)[..n] + Converted(query)[n..];
  }

  /** A character that begins no other token is copied. */
  lemma PlainIsCopied(c: char, rest: string)
    requires Opening(c) == Sql && !(c == '-' && At(rest, 0, '-')) && !(c == '/' && At(rest, 0, '*'))
    requires !(c == '$' && rest != [] && IsDigit(rest[0]))
    ensures Converted([c] + rest) == [c] + Converted(rest)
  {
    var query := [c] + rest;
    assert query[1..] == rest;
    assert Lex(query, 1) == Advance(START, query, 0);
    CopiesToken(query, 1);
  }

  /** A placeholder in plain SQL is rewritten and its number kept. */
  lemma PlaceholderIsRewritten(digits: string, rest: string)
    requires digits != [] && forall k :: 0 <= k < |digits| ==> IsDigit(digits[k])
    ensures Converted("$" + digits + rest) == "?" + digits + Converted(rest)
  {
    hide Converted, IsPlaceholder;
    var query := "$" + digits + rest;
    var n := 1 + |digits|;
    assert query[1..n] == digits && query[n..] == rest;
    forall k | 0 < k < n ensures IsDigit(query[k]) { assert query[k] == digits[k - 1]; }
    DigitsStayInSql(query, 0, n);
    hide Lex;
    ConvertedResumes(query, n);
    assert Converted(query)[..n] == "?" + digits by {
      forall k | 0 <= k < n ensures Converted(query)[k] == ("?" + digits)[k] {}
    }
    assert Converted(query) == Converted(query)[..n] + Converted(query)[n..];
  }

  /** Quoted text as it is written: every closing character in it doubled. */
  function Escaped(body: string, closing: char): string {
    if body == [] then []
    else (if body[0] == closing then [closing, closing] else [body[0]]) + Escaped(body[1..], closing)
  }

  /** Inside quotes or an identifier nothing is rewritten, whatever it contains, and plain SQL resumes after it. */
  lemma QuotedIsCopied(opening: char, body: string, rest: string)
    requires Opening(opening) != Sql
    requires !At(rest, 0, Closing(Opening(opening)))
    ensures var quoted := [opening] + Escaped(body, Closing(Opening(opening))) + [Closing(Opening(opening))];
            Converted(quoted + rest) == quoted + Converted(rest)
  {
    var closing := Closing(Opening(opening));
    var quoted := [opening] + Escaped(body, closing) + [closing];
    var query := quoted + rest;
    assert Lex(query, 1) == Advance(START, query, 0);
    assert query[1..] == Escaped(body, closing) + ([closing] + rest);
    LexQuoted(query, 1, body, rest);
    assert query[|quoted|..] == rest && query[..|quoted|] == quoted;
    CopiesToken(query, |quoted|);
  }

  lemma {:induction false} NothingEscaped(body: string, closing: char)
    requires closing !in body
    ensures Escaped(body, closing) == body
  {
    if body != [] {
      NothingEscaped(body[1..], closing);
      assert body == [body[0]] + body[1..];
    }
  }

  /** Text between single quotes, double quotes, back-ticks or brackets is copied, with any `$n` in it. */
  lemma FourQuotesAreCopied(opening: char, closing: char, body: string, rest: string)
    requires (opening, closing) in {('\'', '\''), ('"', '"'), ('`', '`'), ('[', ']')}
    requires closing !in body && (rest != "" ==> rest[0] != closing)
    ensures Converted([opening] + body + [closing] + rest) == [opening] + body + [closing] + Converted(rest)
  {
    hide Converted;
    NothingEscaped(body, closing);
    QuotedIsCopied(opening, body, rest);
  }

  /** One character inside quotes: another one, a doubled closing character, or the end. */
  lemma QuotedStep(query: string, i: nat, lexer: Lexer)
    requires i < |query| && Lex(query, i) == lexer && Quoting(lexer.state) && !lexer.skip
    ensures query[i] != Closing(lexer.state) ==> Lex(query, i + 1) == lexer
    ensures query[i] == Closing(lexer.state) && At(query, i + 1, query[i]) ==>
      Lex(query, i + 1) == lexer.(skip := true) && Lex(query, i + 2) == lexer
    ensures query[i] == Closing(lexer.state) && !At(query, i + 1, query[i]) ==>
              Lex(query, i + 1) == lexer.(state := Sql)
  {
    assert Lex(query, i + 1) == Advance(Lex(query, i), query, i);
  }

  /** A character of the body, doubled if it is the closing one, leaves the lexer where it is. */
  lemma QuotedHead(query: string, i: nat, body: string, tail: string)
    requires i <= |query| && Quoting(Lex(query, i).state) && !Lex(query, i).skip && body != [] && tail != []
    requires query[i..] == Escaped(body, Closing(Lex(query, i).state)) + tail
    ensures var lexer := Lex(query, i);
            var next := i + if body[0] == Closing(lexer.state) then 2 else 1;
            && next < |query| && Lex(query, next) == lexer
            && query[next..] == Escaped(body[1..], Closing(lexer.state)) + tail
            && Escaped(body, Closing(lexer.state)) == query[i..next] + Escaped(body[1..], Closing(lexer.state))
            && forall k: nat :: i <= k < next ==> !Lex(query, k).state.Sql?
  {
    hide Lex, Advance;
    var lexer := Lex(query, i);
    var closing := Closing(lexer.state);
    var head := if body[0] == closing then [closing, closing] else [body[0]];
    assert Escaped(body, closing) + tail == head + (Escaped(body[1..], closing) + tail);
    ReadsOn(query, i, head, Escaped(body[1..], closing) + tail);
    QuotedStep(query, i, lexer);
  }

  lemma {:induction false} LexQuoted(query: string, i: nat, body: string, rest: string)
    requires i <= |query| && Quoting(Lex(query, i).state) && !Lex(query, i).skip && Lex(query, i).depth == 0
    requires var closing := Closing(Lex(query, i).state);
             query[i..] == Escaped(body, closing) + ([closing] + rest) && !At(rest, 0, closing)
    ensures var n := i + |Escaped(body, Closing(Lex(query, i).state))| + 1;
            n <= |query| && Lex(query, n) == START && forall k: nat :: i <= k < n ==> !Lex(query, k).state.Sql?
    decreases |body|
  {
    hide Lex, Advance;
    var lexer := Lex(query, i);
    var closing := Closing(lexer.state);
    if body == [] {
      ReadsOn(query, i, [], [closing] + rest);
      QuotedStep(query, i, lexer);
    } else {
      QuotedHead(query, i, body, [closing] + rest);
      hide Escaped, Closing;
      LexQuoted(query, i + if body[0] == closing then 2 else 1, body[1..], rest);
    }
  }

  predicate NoLineEnd(body: string) {
    forall k :: 0 <= k < |body| ==> body[k] != '\n' && body[k] != '\r'
  }

  /** A line comment is copied up to its line end. */
  lemma LineCommentIsCopied(body: string, end: char, rest: string)
    requires NoLineEnd(body) && (end == '\n' || end == '\r')
    ensures Converted("--" + body + [end] + rest) == "--" + body + [end] + Converted(rest)
  {
    var comment := "--" + body + [end];
    var query := comment + rest;
    assert Lex(query, 1) == Advance(START, query, 0);
    for k := 2 to |comment| - 1
      invariant Lex(query, k) == Lexer(LineComment, 0, false)
      invariant forall j: nat :: 1 <= j < k ==> !Lex(query, j).state.Sql?
    {
      assert query[k] == body[k - 2];
    }
    assert query[|comment| - 1] == end;
    assert query[|comment|..] == rest && query[..|comment|] == comment && "--" + body + [end] + rest == query;
    CopiesToken(query, |comment|);
  }

  /** A block comment: text and comments nested in it. */
  datatype Part = Text(c: char) | Inner(parts: seq<Part>)

  function Written(parts: seq<Part>): string {
    if parts == [] then []
    else
      (match parts[0] case Text(c) => [c] case Inner(inner) => "/*" + Written(inner) + "*/") + Written(parts[1..])
  }

  predicate Marker(a: char, b: char) {
    (a == '/' && b == '*') || (a == '*' && b == '/')
  }

  /** No text character begins a comment marker with what is written after it; `tail` follows the parts. */
  predicate TextOk(parts: seq<Part>, tail: string) {
    parts != [] ==>
      && (match parts[0]
          case Text(c) => !(Written(parts[1..]) + tail != [] && Marker(c, (Written(parts[1..]) + tail)[0]))
          case Inner(inner) => TextOk(inner, "*/"))
      && TextOk(parts[1..], tail)
  }

  /** Inside a block comment: a nested start, the end of the innermost one, or another character. */
  lemma OpenMarker(query: string, i: nat, depth: nat)
    requires i + 1 < |query| && Lex(query, i) == Lexer(BlockComment, depth, false) && query[i] == '/'
             && query[i + 1] == '*'
    ensures Lex(query, i + 1).state.BlockComment? && Lex(query, i + 2) == Lexer(BlockComment, depth + 1, false)
  {
    assert Lex(query, i + 1) == Advance(Lex(query, i), query, i);
  }

  lemma CloseMarker(query: string, i: nat, depth: nat)
    requires i + 1 < |query| && Lex(query, i) == Lexer(BlockComment, depth, false) && query[i] == '*'
             && query[i + 1] == '/'
    ensures var state := if depth == 1 then Sql else BlockComment;
            Lex(query, i + 1) == Lexer(state, depth - 1, true) && Lex(query, i + 2) == Lexer(state, depth - 1, false)
  {
    assert Lex(query, i + 1) == Advance(Lex(query, i), query, i);
  }

  lemma TextStep(query: string, i: nat, depth: nat)
    requires i + 1 < |query| && Lex(query, i) == Lexer(BlockComment, depth, false) && !Marker(query[i], query[i + 1])
    ensures Lex(query, i + 1) == Lex(query, i)
  {
    assert Lex(query, i + 1) == Advance(Lex(query, i), query, i);
  }

  /** Characters that are not read in plain SQL, and a `/`, are not placeholders. */
  lemma NoPlaceholderInside(query: string, n: nat)
    requires n <= |query|
    requires forall k: nat :: k < n ==> query[k] != '$' || !Lex(query, k).state.Sql?
    ensures forall k: nat :: k < n ==> !IsPlaceholder(query, k)
  {
    hide Lex;
  }

  lemma CommentReads(query: string, body: string, rest: string)
    requires query == "/*" + body + "*/" + rest
    ensures query[0] == '/' && query[1] == '*' && query[2..] == body + ("*/" + rest)
    ensures query[2 + |body|] == '*' && query[3 + |body|] == '/'
    ensures query[..4 + |body|] == "/*" + body + "*/" && query[4 + |body|..] == rest
  {
  }

  lemma LexOpens(query: string)
    requires |query| >= 2 && query[0] == '/' && query[1] == '*'
    ensures Lex(query, 0) == START && Lex(query, 1) == Lexer(BlockComment, 1, true)
    ensures Lex(query, 2) == Lexer(BlockComment, 1, false)
  {
    OneStep(query, 0, START);
    OneStep(query, 1, Lexer(BlockComment, 1, true));
  }

  /** A block comment is copied with all comments nested in it, and plain SQL resumes after its own end. */
  lemma BlockCommentIsCopied(parts: seq<Part>, rest: string)
    requires TextOk(parts, "*/")
    ensures var comment := "/*" + Written(parts) + "*/";
            Converted(comment + rest) == comment + Converted(rest)
  {
    var comment := "/*" + Written(parts) + "*/";
    var query := comment + rest;
    hide Lex, Written, TextOk, Converted, IsPlaceholder;
    var n := 2 + |Written(parts)|;
    CommentReads(query, Written(parts), rest);
    LexOpens(query);
    LexParts(query, 2, parts, "*/" + rest, 1);
    CloseMarker(query, n, 1);
    NoPlaceholderInside(query, |comment|);
    CopiesToken(query, |comment|);
  }

  /** The query from `i` on begins with `text`. */
  predicate Reads(query: string, i: nat, text: string, tail: string) {
    i <= |query| && query[i..] == text + tail
  }

  lemma ReadsOn(query: string, i: nat, a: string, b: string)
    requires Reads(query, i, a, b)
    ensures Reads(query, i + |a|, b, [])
    ensures forall k :: 0 <= k < |a| ==> query[i + k] == a[k]
    ensures forall k :: 0 <= k < |b| ==> query[i + |a| + k] == b[k]
  {
    assert query[i + |a|..] == query[i..][|a|..] == b == b + [];
    forall k | 0 <= k < |a| ensures query[i + k] == a[k] { assert query[i..][k] == (a + b)[k]; }
    forall k | 0 <= k < |b| ensures query[i + |a| + k] == b[k] { assert query[i..][|a| + k] == (a + b)[|a| + k]; }
  }

  lemma {:induction false} LexParts(query: string, i: nat, parts: seq<Part>, tail: string, depth: nat)
    requires i <= |query| && query[i..] == Written(parts) + tail && Lex(query, i) == Lexer(BlockComment, depth, false)
    requires depth >= 1 && |tail| >= 2 && tail[..2] == "*/" && TextOk(parts, "*/")
    ensures i + |Written(parts)| <= |query| && Lex(query, i + |Written(parts)|) == Lexer(BlockComment, depth, false)
    ensures forall k: nat :: i <= k <= i + |Written(parts)| ==> Lex(query, k).state == BlockComment
    decreases parts, 1
  {
    hide Lex, Advance;
    if parts != [] {
      match parts[0]
      case Text(c) => LexText(query, i, c, parts, tail, depth);
      case Inner(inner) =>
        var next := Written(parts[1..]);
        var after := next + tail;
        assert Written(parts) == "/*" + Written(inner) + "*/" + next;
        InnerReads(query, i, Written(inner), next, tail);
        OpenMarker(query, i, depth);
        LexParts(query, i + 2, inner, "*/" + after, depth + 1);
        var m := i + 2 + |Written(inner)|;
        CloseMarker(query, m, depth + 1);
        LexParts(query, m + 2, parts[1..], tail, depth);
    }
  }

  lemma InnerReads(query: string, i: nat, inner: string, next: string, tail: string)
    requires Reads(query, i, "/*" + inner + "*/" + next, tail)
    ensures var m := i + 2 + |inner|;
            && m + 2 <= |query|
            && query[i] == '/' && query[i + 1] == '*' && query[m] == '*' && query[m + 1] == '/'
            && query[i + 2..] == inner + ("*/" + (next + tail)) && query[m + 2..] == next + tail
  {
    var after := "*/" + (next + tail);
    assert query[i..] == "/*" + (inner + after);
    ReadsOn(query, i, "/*", inner + after);
    assert query[i + 2..] == inner + after;
    ReadsOn(query, i + 2, inner, after);
    assert query[i + 2 + |inner|..] == "*/" + (next + tail);
    ReadsOn(query, i + 2 + |inner|, "*/", next + tail);
  }

  lemma TextReads(query: string, i: nat, c: char, next: string, tail: string)
    requires Reads(query, i, [c] + next, tail) && |tail| >= 2 && tail[..2] == "*/"
    ensures i + 1 < |query| && query[i] == c && query[i + 1] == (next + "*/")[0] && query[i + 1..] == next + tail
  {
    assert query[i..] == [c] + (next + tail);
    ReadsOn(query, i, [c], next + tail);
  }

  lemma {:induction false} LexText(query: string, i: nat, c: char, parts: seq<Part>, tail: string, depth: nat)
    requires i <= |query| && query[i..] == Written(parts) + tail && Lex(query, i) == Lexer(BlockComment, depth, false)
    requires depth >= 1 && |tail| >= 2 && tail[..2] == "*/" && TextOk(parts, "*/")
    requires parts != [] && parts[0] == Text(c)
    ensures i + |Written(parts)| <= |query| && Lex(query, i + |Written(parts)|) == Lexer(BlockComment, depth, false)
    ensures forall k: nat :: i <= k <= i + |Written(parts)| ==> Lex(query, k).state == BlockComment
    decreases parts, 0
  {
    hide Lex, Advance;
    var next := Written(parts[1..]);
    assert Written(parts) == [c] + next;
    TextReads(query, i, c, next, tail);
    TextStep(query, i, depth);
    LexParts(query, i + 1, parts[1..], tail, depth);
  }
}
