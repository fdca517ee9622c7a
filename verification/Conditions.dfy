/**
 What a bound WHERE condition means: words between blanks, parenthesised groups and quoted texts kept whole, NOT before
 AND before OR.  Comparisons are atoms, read by any valuation of their words.
 */
module Conditions {
  import opened Basics
  import opened Texts
  import opened WhereFragments

  type Word<T> = seq<Piece<T>>

  // ----- words

  datatype Mode = Mode(depth: int, quoted: bool)

  const TOP := Mode(0, false)

  function After<T>(m: Mode, p: Piece<T>): Mode {
    if !p.Text? then m
    else if p.c == '\'' then m.(quoted := !m.quoted)
    else if m.quoted then m
    else if p.c == '(' then m.(depth := m.depth + 1)
    else if p.c == ')' then m.(depth := m.depth - 1)
    else m
  }

  function AfterAll<T>(m: Mode, s: seq<Piece<T>>): Mode
    decreases |s|
  {
    if s == [] then m else AfterAll(After(m, s[0]), s[1..])
  }

  predicate Blank<T>(p: Piece<T>) { p.Text? && IsSpace(p.c) }

  function Total<T>(words: seq<Word<T>>): nat {
    if words == [] then 0 else |words[0]| + 1 + Total(words[1..])
  }

  function Ended<T>(word: Word<T>): seq<Word<T>> { if word == [] then [] else [word] }

  /** The words of `s`, of which `word` has been read; a blank ends a word outside of parentheses and quotes. */
  function WordsFrom<T>(s: seq<Piece<T>>, m: Mode, word: Word<T>): (words: seq<Word<T>>)
    ensures Total(words) <= |s| + |word| + 1
    decreases |s|
  {
    if s == [] then Ended(word)
    else if m == TOP && Blank(s[0]) then
      TotalApart(Ended(word), WordsFrom(s[1..], TOP, []));
      Ended(word) + WordsFrom(s[1..], TOP, [])
    else WordsFrom(s[1..], After(m, s[0]), word + [s[0]])
  }

  function Words<T>(s: seq<Piece<T>>): seq<Word<T>> { WordsFrom(s, TOP, []) }

  lemma {:induction false} TotalApart<T>(a: seq<Word<T>>, b: seq<Word<T>>)
    ensures Total(a + b) == Total(a) + Total(b)
  {
    if a == [] {
      assert a + b == b;
    } else {
      assert (a + b)[1..] == a[1..] + b;
      TotalApart(a[1..], b);
    }
  }

  // ----- meaning

  datatype Keyword = And | Or | Not

  predicate Spells<T>(word: Word<T>, upper: string, lower: string)
    requires |upper| == |lower|
  {
    |word| == |upper| && forall i :: 0 <= i < |word| ==>
      word[i].Text? && (word[i].c == upper[i] || word[i].c == lower[i])
  }

  predicate IsKey<T>(word: Word<T>, key: Keyword) {
    match key
    case And => Spells(word, "AND", "and")
    case Or => Spells(word, "OR", "or")
    case Not => Spells(word, "NOT", "not")
  }

  /** The keywords by their letters, in whatever case. */
  lemma KeywordsAre<T>(word: Word<T>)
    ensures IsKey(word, And) <==>
              |word| == 3 && word[0] in {Text('A'), Text('a')} && word[1] in {Text('N'), Text('n')}
              && word[2] in {Text('D'), Text('d')}
    ensures IsKey(word, Or) <==> |word| == 2 && word[0] in {Text('O'), Text('o')} && word[1] in {Text('R'), Text('r')}
    ensures IsKey(word, Not) <==>
              |word| == 3 && word[0] in {Text('N'), Text('n')} && word[1] in {Text('O'), Text('o')}
              && word[2] in {Text('T'), Text('t')}
  {
  }

  /** The place of the first such keyword, or the number of words. */
  function First<T>(words: seq<Word<T>>, key: Keyword): (i: nat)
    ensures i <= |words| && (i < |words| ==> IsKey(words[i], key)) && forall j :: 0 <= j < i ==> !IsKey(words[j], key)
  {
    if words == [] || IsKey(words[0], key) then 0 else 1 + First(words[1..], key)
  }

  /** Every closing parenthesis has its opening one. */
  predicate Closed<T>(s: seq<Piece<T>>, m: Mode) {
    if s == [] then m == TOP else After(m, s[0]).depth >= 0 && Closed(s[1..], After(m, s[0]))
  }

  /** A word that is one pair of parentheses around something. */
  predicate IsGroup<T>(word: Word<T>) {
    |word| >= 2 && word[0] == Text('(') && word[|word| - 1] == Text(')') && Closed(word[1..|word| - 1], TOP)
  }

  /** Only one pair around all of it makes a group, not two pairs in a row and not a call. */
  lemma WholePairsOnly()
    ensures IsGroup(Chars<int>("(a)")) && !IsGroup(Chars<int>("(a)(b)")) && !IsGroup(Chars<int>("f(a)"))
  {
    var one, two, call := Chars<int>("(a)"), Chars<int>("(a)(b)"), Chars<int>("f(a)");
    CharsAre<int>("(a)");
    CharsAre<int>("(a)(b)");
    CharsAre<int>("f(a)");
    hide Chars;
    assert one[1..|one| - 1] == [Text('a')];
    assert Closed([Piece<int>.Text('a')][1..], After(TOP, Piece<int>.Text('a')));
    assert Closed([Piece<int>.Text('a')], TOP);
    var inside := two[1..5];
    assert inside == [Text('a'), Text(')'), Text('('), Text('b')];
    assert inside[1..][0] == Text(')');
    assert !Closed(inside[1..], TOP);
  }

  lemma TotalSplit<T>(words: seq<Word<T>>, i: nat)
    requires i < |words|
    ensures Total(words[..i]) < Total(words) && Total(words[i + 1..]) < Total(words)
  {
    assert words == words[..i] + ([words[i]] + words[i + 1..]);
    TotalApart(words[..i], [words[i]] + words[i + 1..]);
  }

  function Means<T>(words: seq<Word<T>>, atom: seq<Word<T>> -> bool): bool
    decreases Total(words)
  {
    var or, and := First(words, Or), First(words, And);
    if or < |words| then
      TotalSplit(words, or);
      Means(words[..or], atom) || Means(words[or + 1..], atom)
    else if and < |words| then
      TotalSplit(words, and);
      Means(words[..and], atom) && Means(words[and + 1..], atom)
    else if words != [] && IsKey(words[0], Not) then !Means(words[1..], atom)
    else if |words| == 1 && IsGroup(words[0]) then Means(Words(words[0][1..|words[0]| - 1]), atom)
    else atom(words)
  }

  predicate Truth<T>(s: seq<Piece<T>>, atom: seq<Word<T>> -> bool) { Means(Words(s), atom) }

  // ----- joining

  /** What a clause needs to be joined with AND: closed parentheses and quotes, and no OR outside of them. */
  predicate Joinable<T>(s: seq<Piece<T>>) { AfterAll(TOP, s) == TOP && NoOr(Words(s)) }

  predicate NoOr<T>(words: seq<Word<T>>) { First(words, Or) == |words| }

  lemma {:induction false} AfterApart<T>(m: Mode, a: seq<Piece<T>>, b: seq<Piece<T>>)
    ensures AfterAll(m, a + b) == AfterAll(AfterAll(m, a), b)
    decreases |a|
  {
    if a == [] {
      assert a + b == b;
    } else {
      assert (a + b)[1..] == a[1..] + b;
      AfterApart(After(m, a[0]), a[1..], b);
    }
  }

  /** A blank after closed text parts the words before it from those after it. */
  lemma {:induction false} WordsApart<T>(a: seq<Piece<T>>, blank: Piece<T>, b: seq<Piece<T>>, m: Mode, word: Word<T>)
    requires AfterAll(m, a) == TOP && Blank(blank)
    ensures WordsFrom(a + ([blank] + b), m, word) == WordsFrom(a, m, word) + Words(b)
    decreases |a|
  {
    hide IsSpace;
    var s := a + ([blank] + b);
    if a == [] {
      assert s == [blank] + b && s[1..] == b;
    } else {
      assert s[1..] == a[1..] + ([blank] + b) && s[0] == a[0];
      if m == TOP && Blank(a[0]) {
        assert After(m, a[0]) == TOP by { BlankChangesNothing(m, a[0]); }
        WordsApart(a[1..], blank, b, TOP, []);
      } else {
        WordsApart(a[1..], blank, b, After(m, a[0]), word + [a[0]]);
      }
    }
  }

  lemma BlankChangesNothing<T>(m: Mode, p: Piece<T>)
    requires Blank(p)
    ensures After(m, p) == m
  {
  }

  lemma {:induction false} CharsAre<T>(s: string)
    ensures |Chars<T>(s)| == |s| && forall i :: 0 <= i < |s| ==> Chars<T>(s)[i] == Text(s[i])
  {
    if s != "" { CharsAre<T>(s[1..]); }
  }

  lemma CharsApart<T>(a: string, b: string)
    ensures Chars<T>(a + b) == Chars<T>(a) + Chars<T>(b)
  {
    hide Chars;
    CharsAre<T>(a);
    CharsAre<T>(b);
    CharsAre<T>(a + b);
  }

  lemma {:induction false} QuoteGoesOn<T>(body: seq<Piece<T>>, word: Word<T>)
    requires Text('\'') !in body
    ensures WordsFrom(body + [Text('\'')], Mode(0, true), word) == [word + body + [Text('\'')]]
    ensures AfterAll(Mode(0, true), body + [Text('\'')]) == TOP
    decreases |body|
  {
    var s := body + [Piece<T>.Text('\'')];
    if body == [] {
      assert s[1..] == [] && word + [s[0]] == word + body + [Text('\'')];
    } else {
      assert s[1..] == body[1..] + [Text('\'')] && After(Mode(0, true), s[0]) == Mode(0, true);
      QuoteGoesOn(body[1..], word + [body[0]]);
      assert word + [body[0]] + body[1..] == word + body;
    }
  }

  /** A quoted text is one word, with any blanks, parentheses and keywords in it. */
  lemma QuotedIsOneWord<T>(body: seq<Piece<T>>)
    requires Text('\'') !in body
    ensures var quoted := Chars<T>("'") + body + Chars<T>("'"); Words(quoted) == [quoted] && Joinable(quoted)
  {
    CharsAre<T>("'");
    hide Chars, IsSpace;
    var quote := [Piece<T>.Text('\'')];
    assert Chars<T>("'") == quote;
    var s := quote + body + quote;
    assert s[1..] == body + quote && [] + [s[0]] == quote;
    QuoteGoesOn(body, quote);
    QuoteIsNoBlank<T>();
    assert After(TOP, s[0]) == Mode(0, true);
    assert !IsKey(s, Or) by { KeywordsAre(s); }
  }

  lemma QuoteIsNoBlank<T>()
    ensures !Blank(Piece<T>.Text('\''))
  {
  }

  /** A piece of a word that opens and closes nothing. */
  predicate Ordinary<T>(p: Piece<T>) { p.Text? ==> !IsSpace(p.c) && p.c != '\'' && p.c != '(' && p.c != ')' }

  lemma {:induction false} OrdinaryIsOneWord<T>(s: seq<Piece<T>>, word: Word<T>)
    requires forall p :: p in s ==> Ordinary(p)
    ensures WordsFrom(s, TOP, word) == Ended(word + s) && AfterAll(TOP, s) == TOP
    decreases |s|
  {
    if s == [] {
      assert word + s == word;
    } else {
      assert s[0] in s && forall p :: p in s[1..] ==> p in s;
      assert word + [s[0]] + s[1..] == word + s;
      OrdinaryIsOneWord(s[1..], word + [s[0]]);
    }
  }

  lemma KeywordIsWord<T>(keyword: string)
    requires keyword == "AND" || keyword == "OR"
    ensures Words(Chars<T>(keyword)) == [Chars(keyword)] && AfterAll(TOP, Chars<T>(keyword)) == TOP
    ensures IsKey(Chars<T>(keyword), And) <==> keyword == "AND"
    ensures IsKey(Chars<T>(keyword), Or) <==> keyword == "OR"
  {
    CharsAre<T>(keyword);
    hide Chars, WordsFrom, AfterAll;
    forall p | p in Chars<T>(keyword) ensures Ordinary(p) {}
    OrdinaryIsOneWord(Chars<T>(keyword), []);
    assert [] + Chars<T>(keyword) == Chars<T>(keyword);
  }

  lemma BlankText<T>()
    ensures Chars<T>(" ") == [Text(' ')] && Blank(Piece<T>.Text(' ')) && AfterAll(TOP, [Piece<T>.Text(' ')]) == TOP
  {
    SpaceIsSpace();
    CharsAre<T>(" ");
  }

  /** A keyword written between two texts is a word between their words. */
  lemma WordsBetween<T>(a: seq<Piece<T>>, keyword: string, b: seq<Piece<T>>)
    requires AfterAll(TOP, a) == TOP && (keyword == "AND" || keyword == "OR")
    ensures Words(a + Chars(" " + keyword + " ") + b) == Words(a) + [Chars<T>(keyword)] + Words(b)
    ensures AfterAll(TOP, a + Chars(" " + keyword + " ") + b) == AfterAll(TOP, b)
  {
    hide *;
    var word := Chars<T>(keyword);
    KeywordIsWord<T>(keyword);
    BlankText<T>();
    var blank := Piece<T>.Text(' ');
    CharsApart<T>(" ", keyword);
    CharsApart<T>(" " + keyword, " ");
    assert a + Chars(" " + keyword + " ") + b == a + ([blank] + (word + ([blank] + b)));
    WordsApart(a, blank, word + ([blank] + b), TOP, []);
    WordsApart(word, blank, b, TOP, []);
    WordsJoin(a, blank, word, b);
    AfterApart(TOP, a, [blank] + (word + ([blank] + b)));
    AfterApart(TOP, [blank], word + ([blank] + b));
    AfterApart(TOP, word, [blank] + b);
    AfterApart(TOP, [blank], b);
  }

  lemma WordsJoin<T>(a: seq<Piece<T>>, blank: Piece<T>, word: Word<T>, b: seq<Piece<T>>)
    requires Words(word) == [word]
    requires WordsFrom(a + ([blank] + (word + ([blank] + b))), TOP, [])
             == WordsFrom(a, TOP, []) + Words(word + ([blank] + b))
    requires WordsFrom(word + ([blank] + b), TOP, []) == WordsFrom(word, TOP, []) + Words(b)
    ensures Words(a + ([blank] + (word + ([blank] + b)))) == Words(a) + [word] + Words(b)
  {
    hide WordsFrom;
  }

  // ----- the meaning of joined words

  lemma FirstAndSplits<T>(words: seq<Word<T>>, atom: seq<Word<T>> -> bool)
    requires NoOr(words) && First(words, And) < |words|
    ensures var i := First(words, And); Means(words, atom) <==> Means(words[..i], atom) && Means(words[i + 1..], atom)
  {
    hide IsKey, Words, IsGroup;
  }

  /** AND joins what its sides mean, however many ANDs they hold. */
  lemma {:induction false} AndMeansBoth<T>(a: seq<Word<T>>, and: Word<T>, b: seq<Word<T>>, atom: seq<Word<T>> -> bool)
    requires NoOr(a) && NoOr(b) && IsKey(and, And) && !IsKey(and, Or)
    ensures Means(a + [and] + b, atom) <==> Means(a, atom) && Means(b, atom)
    ensures NoOr(a + [and] + b)
    decreases |a|
  {
    var words := a + [and] + b;
    FirstApart(a, and, b, Or);
    FirstApart(a, and, b, And);
    var i := First(a, And);
    hide IsKey, Means;
    FirstAndSplits(words, atom);
    if i < |a| {
      FirstAndSplits(a, atom);
      NoOrInPart(a, i);
      AndMeansBoth(a[i + 1..], and, b, atom);
      assert words[..i] == a[..i] && words[i + 1..] == a[i + 1..] + [and] + b;
    } else {
      assert words[..|a|] == a && words[|a| + 1..] == b;
    }
  }

  lemma FirstApart<T>(a: seq<Word<T>>, w: Word<T>, b: seq<Word<T>>, key: Keyword)
    ensures First(a + [w] + b, key) == if First(a, key) < |a| then First(a, key)
                                      else if IsKey(w, key) then |a| else |a| + 1 + First(b, key)
  {
    hide IsKey, First;
    var words := a + [w] + b;
    assert forall j :: 0 <= j < |a| ==> words[j] == a[j];
    assert words[|a|] == w;
    assert forall j :: 0 <= j < |b| ==> words[|a| + 1 + j] == b[j];
  }

  lemma NoOrInPart<T>(a: seq<Word<T>>, i: nat)
    requires NoOr(a) && i < |a|
    ensures NoOr(a[..i]) && NoOr(a[i + 1..])
  {
    hide IsKey, First;
  }

  /** A part with OR swallows what is joined after it: only its last alternative is joined. */
  lemma OrMeansEither<T>(a: seq<Word<T>>, or: Word<T>, b: seq<Word<T>>, atom: seq<Word<T>> -> bool)
    requires NoOr(a) && IsKey(or, Or)
    ensures Means(a + [or] + b, atom) <==> Means(a, atom) || Means(b, atom)
    ensures !NoOr(a + [or] + b)
  {
    var words := a + [or] + b;
    FirstApart(a, or, b, Or);
    hide IsKey, Words, IsGroup;
    assert words[..|a|] == a && words[|a| + 1..] == b;
  }

  lemma GlueMeansBoth<T>(a: seq<Piece<T>>, b: seq<Piece<T>>, atom: seq<Word<T>> -> bool)
    requires Joinable(a) && Joinable(b)
    ensures Joinable(GlueBound(a, b)) && (Truth(GlueBound(a, b), atom) <==> Truth(a, atom) && Truth(b, atom))
  {
    hide Means, Words, AfterAll, Chars, First;
    assert " " + "AND" + " " == " AND ";
    WordsBetween(a, "AND", b);
    KeywordIsWord<T>("AND");
    AndMeansBoth(Words(a), Chars("AND"), Words(b), atom);
  }

  lemma {:induction false} JoinMeansAll<T>(clauses: seq<seq<Piece<T>>>, atom: seq<Word<T>> -> bool)
    requires clauses != [] && forall c :: c in clauses ==> Joinable(c)
    ensures Joinable(JoinBound(clauses))
    ensures Truth(JoinBound(clauses), atom) <==> forall c :: c in clauses ==> Truth(c, atom)
  {
    hide GlueBound, Joinable, Truth;
    var first, rest := clauses[0], clauses[1..];
    assert clauses == [first] + rest && first in clauses;
    assert forall c :: c in clauses <==> c == first || c in rest;
    JoinBoundOfTwo(first, rest);
    if rest != [] {
      JoinMeansAll(rest, atom);
      GlueMeansBoth(first, JoinBound(rest), atom);
    }
  }

  // ----- fragments

  /** The fragment's clause, its placeholders replaced by its own parameters. */
  function BoundClause<T>(f: Fragment<T>): seq<Piece<T>> { Bind(Clause(f.sql), f.params) }

  /** The fragment's condition; without a clause it asks nothing. */
  predicate Holds<T>(f: Fragment<T>, atom: seq<Word<T>> -> bool) {
    Clause(f.sql) != "" ==> Truth(BoundClause(f), atom)
  }

  ghost predicate Combinable<T>(f: Fragment<T>) {
    InRange(Clause(f.sql), |f.params|) && (Clause(f.sql) != "" ==> Joinable(BoundClause(f)))
  }

  lemma {:induction false} PartsOfCombinable<T>(fs: seq<Fragment<T>>, atom: seq<Word<T>> -> bool)
    requires forall f :: f in fs ==> Combinable(f)
    ensures AllInRange(Parts(fs)) && forall c :: c in BoundParts(Parts(fs)) ==> Joinable(c)
    ensures (forall c :: c in BoundParts(Parts(fs)) ==> Truth(c, atom)) <==> forall f :: f in fs ==> Holds(f, atom)
    ensures |BoundParts(Parts(fs))| == |Parts(fs)|
  {
    hide Clause, InRange, Joinable, Truth, Bind;
    if fs != [] {
      var first, rest := fs[0], fs[1..];
      assert fs == [first] + rest && first in fs;
      assert forall f :: f in fs <==> f == first || f in rest;
      PartsOfCombinable(rest, atom);
      var clause, others := Clause(first.sql), Parts(rest);
      if clause == "" {
        assert Parts(fs) == [] + others == others;
      } else {
        var part := Part(clause, first.params);
        assert Parts(fs) == [part] + others && Parts(fs)[1..] == others;
        assert BoundParts(Parts(fs)) == [Bind(clause, first.params)] + BoundParts(others);
        assert forall c :: c in BoundParts(Parts(fs)) <==> c == Bind(clause, first.params) || c in BoundParts(others);
      }
    }
  }

  lemma ClauseOfCombined<T>(fs: seq<Fragment<T>>)
    ensures var parts, combined := Parts(fs), Combined(fs);
            && combined.params == Params(parts)
            && (parts == [] ==> Clause(combined.sql) == "")
            && (parts != [] ==> Clause(combined.sql) == Join(Clauses(parts, 0)) != "")
  {
    hide Clause, Join, Clauses, Params;
    PartOfCombined(fs);
    OneFragment(Combined(fs));
  }

  /**
   The combination holds exactly when every fragment does, each with its own parameters; and it can be combined
   again.
   */
  lemma CombinedMeansAll<T>(fs: seq<Fragment<T>>, atom: seq<Word<T>> -> bool)
    requires forall f :: f in fs ==> Combinable(f)
    ensures Holds(Combined(fs), atom) <==> forall f :: f in fs ==> Holds(f, atom)
    ensures Combinable(Combined(fs))
  {
    hide Clause, Join, Clauses, Params, Parts, Combined, BoundParts, JoinBound, Bind, Joinable, Truth, AllInRange;
    PartsOfCombinable(fs, atom);
    ClauseOfCombined(fs);
    var parts := Parts(fs);
    if parts != [] {
      BindOfJoin(parts, [], []);
      assert [] + Params(parts) + [] == Params(parts);
      JoinMeansAll(BoundParts(parts), atom);
    } else {
      NothingToLex();
    }
  }

  // ----- a clause with OR, and what parentheses do

  /**
   A clause `a OR b` joined with `c` means `a OR (b AND c)`: that is what was meant exactly unless `a` holds and `c`
   does not.
   */
  lemma OrClauseSwallows<T>(a: seq<Piece<T>>, b: seq<Piece<T>>, c: seq<Piece<T>>, atom: seq<Word<T>> -> bool)
    requires Joinable(a) && Joinable(b) && Joinable(c)
    ensures var either := a + Chars(" OR ") + b;
            var joined := Truth(GlueBound(either, c), atom);
            && (Truth(either, atom) <==> Truth(a, atom) || Truth(b, atom)) && !Joinable(either)
            && (joined <==> Truth(a, atom) || (Truth(b, atom) && Truth(c, atom)))
            && ((joined <==> Truth(either, atom) && Truth(c, atom)) <==> !(Truth(a, atom) && !Truth(c, atom)))
  {
    hide Means, Words, AfterAll, Chars, First;
    assert " " + "OR" + " " == " OR ";
    WordsBetween(a, "OR", b);
    WordsBetween(a, "OR", GlueBound(b, c));
    KeywordIsWord<T>("OR");
    OrMeansEither(Words(a), Chars("OR"), Words(b), atom);
    GlueMeansBoth(b, c, atom);
    OrMeansEither(Words(a), Chars("OR"), Words(GlueBound(b, c)), atom);
    assert GlueBound(a + Chars(" OR ") + b, c) == a + Chars(" OR ") + GlueBound(b, c);
  }

  /**
   In second place it takes the condition before it: `c AND a OR b` means `(c AND a) OR b`, unless `b` holds and `c`
   does not.
   */
  lemma OrClauseSwallowsBefore<T>(
      c: seq<Piece<T>>, a: seq<Piece<T>>, b: seq<Piece<T>>, atom: seq<Word<T>> -> bool)
    requires Joinable(c) && Joinable(a) && Joinable(b)
    ensures var either := a + Chars(" OR ") + b;
            var joined := Truth(GlueBound(c, either), atom);
            && (joined <==> (Truth(c, atom) && Truth(a, atom)) || Truth(b, atom))
            && ((joined <==> Truth(c, atom) && Truth(either, atom)) <==> !(Truth(b, atom) && !Truth(c, atom)))
  {
    hide Means, Words, AfterAll, Chars, First;
    assert " " + "OR" + " " == " OR ";
    GlueMeansBoth(c, a, atom);
    WordsBetween(a, "OR", b);
    WordsBetween(GlueBound(c, a), "OR", b);
    KeywordIsWord<T>("OR");
    OrMeansEither(Words(a), Chars("OR"), Words(b), atom);
    OrMeansEither(Words(GlueBound(c, a)), Chars("OR"), Words(b), atom);
    assert GlueBound(c, a + Chars(" OR ") + b) == GlueBound(c, a) + Chars(" OR ") + b;
  }

  /**
   Between two others it takes one with each alternative, which is what was meant exactly unless one is then missing.
   */
  lemma OrClauseSwallowsBoth<T>(
      c: seq<Piece<T>>, a: seq<Piece<T>>, b: seq<Piece<T>>, d: seq<Piece<T>>, atom: seq<Word<T>> -> bool)
    requires Joinable(c) && Joinable(a) && Joinable(b) && Joinable(d)
    ensures var either := a + Chars(" OR ") + b;
            var joined := Truth(GlueBound(c, GlueBound(either, d)), atom);
            && (joined <==> (Truth(c, atom) && Truth(a, atom)) || (Truth(b, atom) && Truth(d, atom)))
            && ((joined <==> Truth(c, atom) && Truth(either, atom) && Truth(d, atom)) <==>
                  !(Truth(c, atom) && Truth(a, atom) && !Truth(d, atom))
                  && !(Truth(b, atom) && Truth(d, atom) && !Truth(c, atom)))
  {
    hide Means, Words, AfterAll, Chars, First, Joinable, Truth;
    GlueMeansBoth(b, d, atom);
    OrClauseSwallowsBefore(c, a, GlueBound(b, d), atom);
    OrClauseSwallows(a, b, d, atom);
    assert GlueBound(a + Chars(" OR ") + b, d) == a + Chars(" OR ") + GlueBound(b, d);
  }

  lemma {:induction false} InsideIsKept<T>(s: seq<Piece<T>>, m: Mode, word: Word<T>)
    requires m.depth >= 0 && Closed(s, m)
    ensures WordsFrom(s + [Text(')')], m.(depth := m.depth + 1), word) == [word + s + [Text(')')]]
    ensures AfterAll(m.(depth := m.depth + 1), s + [Text(')')]) == TOP
    decreases |s|
  {
    hide IsSpace;
    var whole := s + [Piece<T>.Text(')')];
    if s != [] {
      assert whole[1..] == s[1..] + [Piece<T>.Text(')')] && whole[0] == s[0];
      InsideIsKept(s[1..], After(m, s[0]), word + [s[0]]);
      assert word + [s[0]] + s[1..] == word + s;
    } else {
      assert whole == [Piece<T>.Text(')')] && whole[1..] == [];
      assert word + s == word;
    }
  }

  /** Parentheses make any closed condition joinable and keep its meaning. */
  lemma GroupMeansInside<T>(s: seq<Piece<T>>, atom: seq<Word<T>> -> bool)
    requires Closed(s, TOP)
    ensures var group := Chars<T>("(") + s + Chars(")"); Joinable(group) && (Truth(group, atom) <==> Truth(s, atom))
  {
    var group := [Piece<T>.Text('(')] + s + [Piece<T>.Text(')')];
    CharsAre<T>("(");
    CharsAre<T>(")");
    GroupIsOneWord(s);
    hide Chars, Words, AfterAll;
    assert Chars<T>("(") == [Text('(')] && Chars<T>(")") == [Text(')')];
    assert group == Chars<T>("(") + s + Chars(")");
    GroupIsRead(s, atom);
  }

  lemma GroupIsOneWord<T>(s: seq<Piece<T>>)
    requires Closed(s, TOP)
    ensures var group := [Piece<T>.Text('(')] + s + [Piece<T>.Text(')')];
            Words(group) == [group] && AfterAll(TOP, group) == TOP
  {
    var open := Piece<T>.Text('(');
    var group := [open] + s + [Piece<T>.Text(')')];
    assert group[1..] == s + [Piece<T>.Text(')')] && group[0] == open;
    assert !Blank(open) && After(TOP, open) == Mode(1, false);
    assert [] + [open] == [open];
    hide Blank, After, Closed;
    InsideIsKept(s, TOP, [open]);
  }

  lemma GroupIsRead<T>(s: seq<Piece<T>>, atom: seq<Word<T>> -> bool)
    requires Closed(s, TOP)
    ensures var group := [Piece<T>.Text('(')] + s + [Piece<T>.Text(')')];
            NoOr([group]) && (Means([group], atom) <==> Truth(s, atom))
  {
    var group := [Piece<T>.Text('(')] + s + [Piece<T>.Text(')')];
    hide Words, Closed;
    assert group[1..|group| - 1] == s && group[0] == Text('(');
    assert IsGroup(group) && forall key :: !IsKey(group, key);
    hide IsGroup, IsKey;
    assert First([group], Or) == 1 && First([group], And) == 1;
  }

  // ----- what the search and equality fragments mean

  predicate Flat<T>(p: Piece<T>) { After(TOP, p) == TOP }

  lemma {:induction false} FlatIsClosed<T>(s: seq<Piece<T>>)
    requires forall p :: p in s ==> Flat(p)
    ensures Closed(s, TOP) && AfterAll(TOP, s) == TOP
    decreases |s|
  {
    if s != [] {
      assert s[0] in s && Flat(s[0]) && forall p :: p in s[1..] ==> p in s;
      FlatIsClosed(s[1..]);
    }
  }

  predicate SpelledAs(s: string, upper: string, lower: string)
    requires |upper| == |lower|
  {
    |s| == |upper| && forall i :: 0 <= i < |s| ==> s[i] == upper[i] || s[i] == lower[i]
  }

  /** A column name: one word, without parentheses, quotes or a placeholder, and no keyword. */
  predicate IsName(s: string) {
    && s != "" && '$' !in s && (forall c :: c in s ==> !IsSpace(c) && c != '\'' && c != '(' && c != ')')
    && !SpelledAs(s, "AND", "and") && !SpelledAs(s, "OR", "or") && !SpelledAs(s, "NOT", "not")
  }

  lemma NameIsWord<T>(s: string)
    requires IsName(s)
    ensures Chars<T>(s) != [] && forall p :: p in Chars<T>(s) ==> Ordinary(p) && Flat(p)
    ensures forall key :: !IsKey(Chars<T>(s), key)
  {
    CharsAre<T>(s);
    hide Chars, IsSpace;
    forall p | p in Chars<T>(s) ensures Ordinary(p) && Flat(p) {
      var i :| 0 <= i < |s| && Chars<T>(s)[i] == p;
      assert s[i] in s;
    }
    forall key ensures !IsKey(Chars<T>(s), key) {
      if IsKey(Chars<T>(s), key) {
        assert forall i :: 0 <= i < |s| ==> Chars<T>(s)[i] == Text(s[i]);
        assert false;
      }
    }
  }

  /** What a comparison of a column with a value hands to the valuation. */
  function Comparison<T>(column: string, operator: string, value: T): seq<Word<T>> {
    [Chars(column), Chars(operator), [Value(value)]]
  }

  lemma OneWordThenRest<T>(word: Word<T>, rest: seq<Piece<T>>)
    requires word != [] && forall p :: p in word ==> Ordinary(p)
    ensures Words(word + ([Piece<T>.Text(' ')] + rest)) == [word] + Words(rest)
  {
    BlankText<T>();
    hide WordsFrom, AfterAll, Ordinary, IsSpace;
    OrdinaryIsOneWord(word, []);
    WordsApart(word, Piece<T>.Text(' '), rest, TOP, []);
    assert [] + word == word;
  }

  lemma WordsOfThree<T>(first: Word<T>, second: Word<T>, value: T)
    requires first != [] && second != [] && forall p :: p in first || p in second ==> Ordinary(p)
    ensures var blank := Piece<T>.Text(' ');
            Words(first + ([blank] + (second + ([blank] + [Value(value)])))) == [first, second, [Value(value)]]
  {
    var third := [Piece<T>.Value(value)];
    OrdinaryIsOneWord(third, []);
    assert [] + third == third;
    hide Words, Ordinary;
    OneWordThenRest(first, second + ([Piece<T>.Text(' ')] + third));
    OneWordThenRest(second, third);
  }

  /** A comparison is one atom: its words are the column, the operator and the value. */
  lemma ComparisonIsAtom<T>(column: string, operator: string, value: T, atom: seq<Word<T>> -> bool)
    requires IsName(column) && IsName(operator)
    ensures var text := Chars<T>(column) + Chars(" " + operator + " ") + [Value(value)];
            && Joinable(text) && (Truth(text, atom) <==> atom(Comparison(column, operator, value)))
            && forall p :: p in text ==> Flat(p)
  {
    hide IsName, Chars, Words, AfterAll, IsKey, IsGroup, Means, First, Ordinary, IsSpace;
    var first, second, third := Chars<T>(column), Chars<T>(operator), [Piece<T>.Value(value)];
    NameIsWord<T>(column);
    NameIsWord<T>(operator);
    BlankText<T>();
    var blank := Piece<T>.Text(' ');
    CharsApart<T>(" ", operator);
    CharsApart<T>(" " + operator, " ");
    var text := first + Chars<T>(" " + operator + " ") + third;
    assert text == first + ([blank] + (second + ([blank] + third)));
    WordsOfThree(first, second, value);
    ThreeWords(first, second, third, atom);
    assert Flat(blank);
    FlatIsClosed(text);
  }

  lemma ThreeWords<T>(first: Word<T>, second: Word<T>, third: Word<T>, atom: seq<Word<T>> -> bool)
    requires |third| == 1 && forall key :: !IsKey(first, key) && !IsKey(second, key)
    ensures Means([first, second, third], atom) <==> atom([first, second, third])
    ensures NoOr([first, second, third])
  {
    var words := [first, second, third];
    assert !IsKey(third, And) && !IsKey(third, Or);
    assert First(words, Or) == 3 && First(words, And) == 3;
  }

  /** The search fragment asks for a column that is like the query, and can be combined with any others. */
  lemma SearchMeansAny<T>(columns: seq<string>, query: T, atom: seq<Word<T>> -> bool)
    requires columns != [] && forall c :: c in columns ==> IsName(c)
    ensures var f := SearchFragment(columns, Some(query));
            Combinable(f) && (Holds(f, atom) <==> exists c :: c in columns && atom(Comparison(c, "ILIKE", query)))
  {
    hide *;
    assert forall c :: c in columns ==> '$' !in c by { NamesAreSlotless(columns); }
    SearchFragmentBinds(columns, query);
    ComparedAllMeansAny(columns, query, atom);
    FlatIsClosed(ComparedAll(columns, query));
    GroupMeansInside(ComparedAll(columns, query), atom);
    SearchHolds(columns, query, atom);
  }

  lemma NamesAreSlotless(columns: seq<string>)
    requires forall c :: c in columns ==> IsName(c)
    ensures forall c :: c in columns ==> '$' !in c
  {
  }

  lemma SearchHolds<T>(columns: seq<string>, query: T, atom: seq<Word<T>> -> bool)
    requires columns != []
    requires var f := SearchFragment(columns, Some(query));
             && Clause(f.sql) == f.sql && InRange(f.sql, |f.params|)
             && Joinable(Bind(f.sql, f.params))
    ensures var f := SearchFragment(columns, Some(query));
            Combinable(f) && (Holds(f, atom) <==> Truth(Bind(f.sql, f.params), atom))
  {
    hide Clause, InRange, Joinable, Truth, SearchClauses;
    assert SearchFragment(columns, Some(query)).sql != "";
  }

  lemma {:induction false} ComparedAllMeansAny<T>(columns: seq<string>, query: T, atom: seq<Word<T>> -> bool)
    requires columns != [] && forall c :: c in columns ==> IsName(c)
    ensures Truth(ComparedAll(columns, query), atom) <==>
              exists c :: c in columns && atom(Comparison(c, "ILIKE", query))
    ensures forall p :: p in ComparedAll(columns, query) ==> Flat(p)
  {
    hide IsName, Flat, Chars, Words, Means, AfterAll, First, Comparison;
    var column, others := columns[0], columns[1..];
    assert columns == [column] + others && column in columns;
    assert forall c :: c in columns <==> c == column || c in others;
    IlikeIsName();
    ComparisonIsAtom(column, "ILIKE", query, atom);
    assert " " + "ILIKE" + " " == " ILIKE " && " " + "OR" + " " == OR;
    if others != [] {
      ComparedAllMeansAny(others, query, atom);
      WordsBetween(Compared(column, query), "OR", ComparedAll(others, query));
      KeywordIsWord<T>("OR");
      OrMeansEither(Words(Compared(column, query)), Chars("OR"), Words(ComparedAll(others, query)), atom);
      OrIsFlat<T>();
    }
  }

  lemma IlikeIsName()
    ensures IsName("ILIKE") && IsName("=")
  {
  }

  lemma OrIsFlat<T>()
    ensures forall p :: p in Chars<T>(OR) ==> Flat(p)
  {
    CharsAre<T>(OR);
  }

  lemma SingleMeans<T>(column: string, value: T, atom: seq<Word<T>> -> bool)
    requires IsName(column) && IsColumn(column)
    ensures var f := Fragment(column + " = $1", [value]);
            Combinable(f) && (Holds(f, atom) <==> atom(Comparison(column, "=", value)))
  {
    var slot := "$" + "1" + "";
    var sql := column + " = $1";
    assert sql == column + (" = " + slot) && '$' !in column;
    ColumnClause(column, 0);
    IlikeIsName();
    ComparisonIsAtom(column, "=", value, atom);
    OneIsOne();
    hide IsName, IsColumn, Lex, Bound, Chars, Clause;
    SlotFirst("1", "");
    NothingToLex();
    assert Lex(slot) == [Slot(1)] + [];
    assert BindsOne(slot, value, [Value(value)]) by { OneSlot(slot, value); }
    LexAfterSpace(" = ", slot);
    PlainThen(" = ", slot, value, [Value(value)]);
    LexApart(column, " = " + slot);
    PlainThen(column, " = " + slot, value, Chars(" = ") + [Value(value)]);
    assert Chars<T>(column) + (Chars(" = ") + [Value(value)]) == Chars<T>(column) + Chars(" = ") + [Value(value)];
    assert " " + "=" + " " == " = ";
    BindsOneIs(sql, value, Chars<T>(column) + Chars(" = ") + [Value(value)]);
  }

  lemma OneSlot<T>(slot: string, value: T)
    requires Lex(slot) == [Slot(1)]
    ensures BindsOne(slot, value, [Value(value)])
  {
    var tokens := [Slot(1)];
    assert tokens[1..] == [] && Bound(tokens[1..], [value]) == [];
    assert Bound(tokens, [value]) == [BoundToken(tokens[0], [value])];
  }

  lemma {:induction false} SinglesMeanEach<T>(
      filters: seq<Filter<T>>, allowed: map<int, string>, atom: seq<Word<T>> -> bool)
    requires forall key :: key in allowed && allowed[key] != "" ==> IsName(allowed[key]) && IsColumn(allowed[key])
    ensures forall s :: s in Singles(filters, allowed) ==> Combinable(s)
    ensures (forall s :: s in Singles(filters, allowed) ==> Holds(s, atom)) <==>
              forall f :: f in filters && IsUsed(f, allowed) ==> atom(Comparison(allowed[f.key], "=", f.value.value))
  {
    hide IsName, IsColumn, Combinable, Holds, Comparison;
    if filters != [] {
      var first, rest := filters[0], filters[1..];
      assert filters == [first] + rest && first in filters;
      assert forall f :: f in filters <==> f == first || f in rest;
      SinglesMeanEach(rest, allowed, atom);
      if IsUsed(first, allowed) {
        var single := Fragment(allowed[first.key] + " = $1", [first.value.value]);
        SingleMeans(allowed[first.key], first.value.value, atom);
        assert Singles(filters, allowed) == [single] + Singles(rest, allowed);
        assert forall s :: s in Singles(filters, allowed) <==> s == single || s in Singles(rest, allowed);
      } else {
        assert Singles(filters, allowed) == [] + Singles(rest, allowed) == Singles(rest, allowed);
      }
    }
  }

  lemma ColumnsOnly<T>(filters: seq<Filter<T>>, allowed: map<int, string>)
    requires forall key :: key in allowed && allowed[key] != "" ==> IsName(allowed[key]) && IsColumn(allowed[key])
    ensures EqualityFilter(filters, allowed) == Combined(Singles(filters, allowed))
  {
    hide IsName, IsColumn, EqualityFilter, Combined;
    EqualityIsCombined(filters, allowed);
  }

  /** The equality filter asks every used filter's column for its own value, and can be combined with any others. */
  lemma EqualityMeansEach<T>(filters: seq<Filter<T>>, allowed: map<int, string>, atom: seq<Word<T>> -> bool)
    requires forall key :: key in allowed && allowed[key] != "" ==> IsName(allowed[key]) && IsColumn(allowed[key])
    ensures var f := EqualityFilter(filters, allowed);
            Combinable(f)
            && (Holds(f, atom) <==>
                  forall f :: f in filters && IsUsed(f, allowed) ==>
                    atom(Comparison(allowed[f.key], "=", f.value.value)))
  {
    hide *;
    assert EqualityFilter(filters, allowed) == Combined(Singles(filters, allowed)) by { ColumnsOnly(filters, allowed); }
    SinglesMeanEach(filters, allowed, atom);
    CombinedMeansAll(Singles(filters, allowed), atom);
  }

  lemma CombinedPair<T>(f: Fragment<T>, g: Fragment<T>)
    requires InRange(Clause(f.sql), |f.params|) && InRange(Clause(g.sql), |g.params|)
    requires Clause(f.sql) != "" && Clause(g.sql) != ""
    ensures Clause(Combined([f, g]).sql) != ""
    ensures BoundClause(Combined([f, g])) == GlueBound(BoundClause(f), BoundClause(g))
  {
    hide *;
    var parts := [Part(Clause(f.sql), f.params), Part(Clause(g.sql), g.params)];
    assert Parts([f, g]) == parts by {
      PartsApart([f], [g]);
      OneFragment(f);
      OneFragment(g);
      assert [f] + [g] == [f, g];
    }
    ClauseOfCombined([f, g]);
    assert InRange(parts[0].clause, |parts[0].params|) && InRange(parts[1].clause, |parts[1].params|);
    PairInRange(parts);
    BindOfJoin(parts, [], []);
    assert [] + Params(parts) + [] == Params(parts);
    PartsUnfold(parts, 0);
    PartsUnfold(parts[1..], 0);
    assert parts[1..][1..] == [];
    NoClauses<T>(0);
    var first, second := Bind(Clause(f.sql), f.params), Bind(Clause(g.sql), g.params);
    JoinBoundOfTwo(first, [second]);
    JoinBoundOfTwo(second, []);
    assert [second] + [] == [second];
    assert BoundParts(parts[1..]) == [second] && BoundParts(parts) == [first] + [second];
    PairBound(f, g, parts);
  }

  lemma PairInRange<T>(parts: seq<Part<T>>)
    requires |parts| == 2
    requires InRange(parts[0].clause, |parts[0].params|) && InRange(parts[1].clause, |parts[1].params|)
    ensures AllInRange(parts)
  {
  }

  lemma PairBound<T>(f: Fragment<T>, g: Fragment<T>, parts: seq<Part<T>>)
    requires Combined([f, g]).params == Params(parts) && Clause(Combined([f, g]).sql) == Join(Clauses(parts, 0))
    requires Bind(Join(Clauses(parts, 0)), Params(parts))
          == GlueBound(Bind(Clause(f.sql), f.params), Bind(Clause(g.sql), g.params))
    ensures BoundClause(Combined([f, g])) == GlueBound(BoundClause(f), BoundClause(g))
  {
  }

  lemma PlainFragment(sql: string)
    requires '$' !in sql && Clause(sql) == sql
    ensures InRange(sql, 0) && BoundClause<int>(Fragment(sql, [])) == Chars(sql)
  {
    hide Clause;
    PlainIsCopied<int>(sql, []);
  }

  lemma LetterIsAtom(letter: string, atom: seq<Word<int>> -> bool)
    requires IsName(letter) && |letter| == 1
    ensures Joinable(Chars<int>(letter)) && (Truth(Chars<int>(letter), atom) <==> atom([[Text(letter[0])]]))
  {
    var word := Chars<int>(letter);
    NameIsWord<int>(letter);
    CharsAre<int>(letter);
    OrdinaryIsOneWord(word, []);
    assert [] + word == word == [Text(letter[0])];
    hide IsName, Chars, WordsFrom, AfterAll, IsKey;
    assert First([word], Or) == 1 && First([word], And) == 1;
  }

  const EITHER := Fragment<int>.Fragment("a OR b", [])
  const OTHER := Fragment<int>.Fragment("c", [])

  lemma TrimmedClause(s: string)
    requires s != "" && Trimmed(s) && !IsLetter(s[0], 'W', 'w')
    ensures Clause(s) == s
  {
  }

  lemma EitherBinds()
    ensures Clause("a OR b") == "a OR b" && InRange("a OR b", 0) && BoundClause(EITHER) == Chars("a OR b")
  {
    hide InRange, BoundClause, Chars;
    assert '$' !in "a OR b";
    assert Trimmed("a OR b");
    TrimmedClause("a OR b");
    hide Clause;
    PlainFragment("a OR b");
  }

  lemma OtherBinds()
    ensures Clause("c") == "c" && InRange("c", 0) && BoundClause(OTHER) == Chars("c")
  {
    hide InRange, BoundClause, Chars;
    TrimmedClause("c");
    PlainFragment("c");
  }

  lemma LetterIsName(letter: char)
    requires letter in "abc"
    ensures IsName([letter])
  {
  }

  /** An OR in one fragment defeats the others: the combination holds, and one of its fragments does not. */
  lemma OrFragmentBreaks(atom: seq<Word<int>> -> bool)
    requires atom([[Text('a')]]) && !atom([[Text('c')]])
    ensures Holds(Combined([EITHER, OTHER]), atom) && !Holds(OTHER, atom)
  {
    hide Truth, Joinable, Chars, Combined, Clause, Bind, BoundClause, IsName, InRange;
    var a, b, c := Chars<int>("a"), Chars<int>("b"), Chars<int>("c");
    EitherBinds();
    OtherBinds();
    LetterIsName('a');
    LetterIsName('b');
    LetterIsName('c');
    assert ['a'] == "a" && ['b'] == "b" && ['c'] == "c";
    LetterIsAtom("a", atom);
    LetterIsAtom("b", atom);
    LetterIsAtom("c", atom);
    CombinedPair(EITHER, OTHER);
    OrClauseSwallows(a, b, c, atom);
    CharsApart<int>("a", " OR ");
    CharsApart<int>("a OR ", "b");
    assert "a" + " OR " == "a OR " && "a OR " + "b" == "a OR b";
    assert Chars<int>("a OR b") == a + Chars(" OR ") + b;
    assert BoundClause(Combined([EITHER, OTHER])) == GlueBound(a + Chars(" OR ") + b, c);
  }
}
