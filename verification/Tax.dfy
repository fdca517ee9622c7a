/** Tax on invoice lines, in exact arithmetic: amounts are integers in minor units, rates are basis points. */
module Tax {
  import opened Basics

  datatype Behavior = Exclusive | Inclusive | Unspecified
  datatype Line = Line(amount: int, behavior: Behavior)
  /** Countries and regions are compared after trimming and upper-casing, and stand here as codes. */
  datatype Rule = Rule(country: Id, region: Option<Id>, inclusive: bool, basisPoints: nat)
  datatype Customer = Customer(country: Option<Id>, region: Option<Id>, exempt: bool, reverseCharge: bool)
  datatype Taxed = Taxed(line: Line, tax: int, total: int)
  datatype Result = Result(lines: seq<Taxed>, subtotal: int, tax: int, total: int)

  /** `Math.round(n / d)`: to the nearest integer, halves up. */
  function Round(n: int, d: int): int
    requires d > 0
  {
    (2 * n + d) / (2 * d)
  }

  /** `r` is the rounded quotient exactly when it is the one integer within half of it, halves up. */
  lemma RoundIs(n: int, d: int, r: int)
    requires d > 0
    ensures Round(n, d) == r <==> 2 * r * d <= 2 * n + d < 2 * r * d + 2 * d
  {
    var m, w := 2 * n + d, 2 * d;
    assert 2 * r * d == r * w;
    QuotientIs(m, w, r);
  }

  lemma QuotientIs(m: int, w: int, q: int)
    requires w > 0
    ensures m / w == q <==> q * w <= m < q * w + w
  {
    var p := m / w;
    assert p * w <= m < p * w + w;
    if p < q { Multiples(w, p + 1, q); }
    if q < p { Multiples(w, q + 1, p); }
  }

  function ExclusiveTax(net: int, basisPoints: nat): int {
    Round(net * basisPoints, 10_000)
  }

  /** The tax inside an amount that contains it: `amount - amount / (1 + rate)`, rounded. */
  function InclusiveTax(amount: int, basisPoints: nat): int {
    Round(amount * basisPoints, 10_000 + basisPoints)
  }

  /** Taking the tax out of a net amount and its tax gives back exactly that tax, for every amount and every rate. */
  lemma ExtractingUndoesAdding(net: int, basisPoints: nat)
    ensures InclusiveTax(net + ExclusiveTax(net, basisPoints), basisPoints) == ExclusiveTax(net, basisPoints)
  {
    var e, b := ExclusiveTax(net, basisPoints), basisPoints;
    RoundIs(net * b, 10_000, e);
    RoundIs((net + e) * b, 10_000 + b, e);
    assert (net + e) * b == net * b + e * b;
    assert 2 * e * (10_000 + b) == 2 * e * 10_000 + 2 * (e * b);
  }

  /**
   The other way round, adding the tax to what is left of an amount gives the amount back exactly when the extracted tax
   was rounded by less than the share `10000 / (10000 + rate)` of half a unit.
   */
  lemma AddingUndoesExtractingExactlyWhen(amount: int, basisPoints: nat)
    ensures var tax := InclusiveTax(amount, basisPoints);
            amount - tax + ExclusiveTax(amount - tax, basisPoints) == amount
            <==> -10_000 <= 2 * (amount * basisPoints - tax * (10_000 + basisPoints)) < 10_000
  {
    var tax, b := InclusiveTax(amount, basisPoints), basisPoints;
    RoundIs((amount - tax) * b, 10_000, tax);
    assert (amount - tax) * b == amount * b - tax * b;
    assert tax * (10_000 + b) == tax * 10_000 + tax * b;
  }

  /** At a rate of 100 %, no net amount has a gross of one. */
  lemma OneHasNoNet()
    ensures var net := 1 - InclusiveTax(1, 10_000); net + ExclusiveTax(net, 10_000) != 1
  {
  }

  /** The tax inside a non-negative amount is not negative and no larger than the amount. */
  lemma InclusiveTaxIsInside(amount: nat, basisPoints: nat)
    ensures 0 <= InclusiveTax(amount, basisPoints) <= amount
  {
    var t, d := InclusiveTax(amount, basisPoints), 10_000 + basisPoints;
    RoundIs(amount * basisPoints, d, t);
    assert 0 <= amount * basisPoints <= amount * d;
    if t < 0 { Multiples(2 * d, t, -1); }
    if t > amount { Multiples(2 * d, amount + 1, t); }
  }

  // ----- lines

  predicate IsInclusive(line: Line, rule: Rule) { line.behavior.Inclusive? || rule.inclusive }

  function LineTax(line: Line, rule: Option<Rule>): int {
    if rule.None? || line.behavior.Unspecified? then 0
    else if IsInclusive(line, rule.value) then InclusiveTax(line.amount, rule.value.basisPoints)
    else ExclusiveTax(line.amount, rule.value.basisPoints)
  }

  predicate AddsTax(line: Line, rule: Option<Rule>) {
    rule.Some? && !line.behavior.Unspecified? && !IsInclusive(line, rule.value)
  }

  function CalculateLineTax(line: Line, rule: Option<Rule>): Taxed {
    if rule.None? || line.behavior.Unspecified? then Taxed(line, 0, line.amount)
    else
      var tax := LineTax(line, rule);
      Taxed(line, tax, if IsInclusive(line, rule.value) then line.amount else line.amount + tax)
  }

  /**
   An unspecified line, or one without a rule, has no tax.  Tax is added to an exclusive line whose rule is exclusive,
   and is inside the amount of any other.
   */
  lemma LineIs(line: Line, rule: Option<Rule>)
    ensures var taxed := CalculateLineTax(line, rule);
            && taxed.line == line
            && (rule == None || line.behavior == Unspecified ==> taxed.tax == 0 && taxed.total == line.amount)
            && (rule != None && line.behavior == Exclusive && !rule.value.inclusive ==>
                  taxed.tax == ExclusiveTax(line.amount, rule.value.basisPoints)
                  && taxed.total == line.amount + taxed.tax)
            && (rule != None
                && (line.behavior == Inclusive || (line.behavior == Exclusive && rule.value.inclusive)) ==>
                  taxed.tax == InclusiveTax(line.amount, rule.value.basisPoints) && taxed.total == line.amount)
  {
  }

  // ----- the calculation

  predicate Matches(rule: Rule, customer: Customer) {
    customer.country == Some(rule.country) && (rule.region.None? || rule.region == customer.region)
  }

  function FirstMatch(rules: seq<Rule>, customer: Customer): Option<Rule> {
    if rules == [] then None
    else if Matches(rules[0], customer) then Some(rules[0])
    else FirstMatch(rules[1..], customer)
  }

  /** The rule found is the first that matches; without one none does. */
  lemma {:induction false} FirstMatchIsFirst(rules: seq<Rule>, customer: Customer)
    ensures var found := FirstMatch(rules, customer);
            if found.None? then forall i :: 0 <= i < |rules| ==> !Matches(rules[i], customer)
            else exists i :: 0 <= i < |rules| && rules[i] == found.value && Matches(rules[i], customer)
                             && forall j :: 0 <= j < i ==> !Matches(rules[j], customer)
  {
    if rules != [] && !Matches(rules[0], customer) {
      FirstMatchIsFirst(rules[1..], customer);
      var found := FirstMatch(rules[1..], customer);
      if found.Some? {
        var i :| 0 <= i < |rules| - 1 && rules[1..][i] == found.value && Matches(rules[1..][i], customer)
                 && forall j :: 0 <= j < i ==> !Matches(rules[1..][j], customer);
        assert rules[i + 1] == found.value;
        forall j | 0 <= j < i + 1 ensures !Matches(rules[j], customer) {
          if j > 0 { assert rules[j] == rules[1..][j - 1]; }
        }
      } else {
        forall j | 0 <= j < |rules| ensures !Matches(rules[j], customer) {
          if j > 0 { assert rules[j] == rules[1..][j - 1]; }
        }
      }
    }
  }

  function RuleFor(rules: seq<Rule>, customer: Customer): Option<Rule> {
    if customer.exempt || customer.reverseCharge then None else FirstMatch(rules, customer)
  }

  /** No rule applies to exempt and reverse-charge customers; to others only one of their country, and region if any. */
  lemma RuleApplies(rules: seq<Rule>, customer: Customer)
    ensures var found := RuleFor(rules, customer);
            && (customer.exempt || customer.reverseCharge ==> found == None)
            && (found != None ==>
                  found.value in rules && customer.country == Some(found.value.country)
                  && (found.value.region == None || found.value.region == customer.region))
            && (found == None && !customer.exempt && !customer.reverseCharge ==>
                  forall rule :: rule in rules && customer.country == Some(rule.country) ==>
                    rule.region != None && rule.region != customer.region)
  {
    FirstMatchIsFirst(rules, customer);
    hide FirstMatch;
    if FirstMatch(rules, customer) == None {
      forall rule | rule in rules ensures !Matches(rule, customer) {}
    }
  }

  function TaxedLines(lines: seq<Line>, rule: Option<Rule>): (taxed: seq<Taxed>)
    ensures |taxed| == |lines|
  {
    if lines == [] then [] else [CalculateLineTax(lines[0], rule)] + TaxedLines(lines[1..], rule)
  }

  function SumOf(values: seq<int>): int { if values == [] then 0 else values[0] + SumOf(values[1..]) }

  function Amounts(taxed: seq<Taxed>): seq<int> { seq(|taxed|, i requires 0 <= i < |taxed| => taxed[i].line.amount) }
  function Taxes(taxed: seq<Taxed>): seq<int> { seq(|taxed|, i requires 0 <= i < |taxed| => taxed[i].tax) }
  function Totals(taxed: seq<Taxed>): seq<int> { seq(|taxed|, i requires 0 <= i < |taxed| => taxed[i].total) }

  function CalculateTax(lines: seq<Line>, rules: seq<Rule>, customer: Customer): Result {
    var taxed := TaxedLines(lines, RuleFor(rules, customer));
    Result(taxed, SumOf(Amounts(taxed)), SumOf(Taxes(taxed)), SumOf(Totals(taxed)))
  }

  /** The tax of the lines it is added to. */
  function AddedTax(lines: seq<Line>, rule: Option<Rule>): int {
    if lines == [] then 0
    else (if AddsTax(lines[0], rule) then LineTax(lines[0], rule) else 0) + AddedTax(lines[1..], rule)
  }

  lemma {:induction false} TotalsOfLines(lines: seq<Line>, rule: Option<Rule>)
    ensures var taxed := TaxedLines(lines, rule);
            SumOf(Totals(taxed)) == SumOf(Amounts(taxed)) + AddedTax(lines, rule)
  {
    if lines != [] {
      TotalsOfLines(lines[1..], rule);
      var taxed := TaxedLines(lines, rule);
      assert Totals(taxed)[1..] == Totals(taxed[1..]) && Amounts(taxed)[1..] == Amounts(taxed[1..]);
    }
  }

  function NetOf(lines: seq<Line>): int { if lines == [] then 0 else lines[0].amount + NetOf(lines[1..]) }

  lemma {:induction false} LinesAreTaxed(lines: seq<Line>, rule: Option<Rule>)
    ensures forall i :: 0 <= i < |lines| ==> TaxedLines(lines, rule)[i] == CalculateLineTax(lines[i], rule)
    ensures SumOf(Amounts(TaxedLines(lines, rule))) == NetOf(lines)
  {
    hide CalculateLineTax;
    if lines != [] {
      LinesAreTaxed(lines[1..], rule);
      var taxed := TaxedLines(lines, rule);
      assert Amounts(taxed)[1..] == Amounts(taxed[1..]) && taxed[0].line == lines[0] by { LineIs(lines[0], rule); }
    }
  }

  /** Every line is taxed by the one rule, and the subtotal is what the lines came to before. */
  lemma EveryLineIsTaxed(lines: seq<Line>, rules: seq<Rule>, customer: Customer)
    ensures var r := CalculateTax(lines, rules, customer);
            && |r.lines| == |lines| && r.subtotal == NetOf(lines) && r.tax == SumOf(Taxes(r.lines))
            && forall i :: 0 <= i < |lines| ==> r.lines[i] == CalculateLineTax(lines[i], RuleFor(rules, customer))
  {
    LinesAreTaxed(lines, RuleFor(rules, customer));
  }

  /** For every list of lines the total is the subtotal plus the tax of the exclusive lines, and nothing else. */
  lemma TotalIsSubtotalPlusExclusiveTax(lines: seq<Line>, rules: seq<Rule>, customer: Customer)
    ensures var r := CalculateTax(lines, rules, customer);
            r.total == r.subtotal + AddedTax(lines, RuleFor(rules, customer))
  {
    TotalsOfLines(lines, RuleFor(rules, customer));
  }

  /** An exclusive line billed and the same amount read back as inclusive agree on the tax and the total. */
  lemma LinesAgree(net: int, rule: Rule)
    requires !rule.inclusive
    ensures var added := CalculateLineTax(Line(net, Exclusive), Some(rule));
            var read := CalculateLineTax(Line(added.total, Inclusive), Some(rule));
            read.tax == added.tax && read.total == added.total
  {
    ExtractingUndoesAdding(net, rule.basisPoints);
  }

  lemma LineDrift(net: int, basisPoints: nat)
    ensures -10_000 <= 2 * (10_000 * ExclusiveTax(net, basisPoints) - net * basisPoints) <= 10_000
  {
    RoundIs(net * basisPoints, 10_000, ExclusiveTax(net, basisPoints));
  }

  /** Rounding line by line strays from the exact tax of the whole by at most half a unit a line. */
  lemma {:induction false} RoundingDrift(lines: seq<Line>, rule: Rule)
    requires !rule.inclusive && forall line :: line in lines ==> line.behavior.Exclusive?
    ensures var tax, exact := AddedTax(lines, Some(rule)), NetOf(lines) * rule.basisPoints;
            -10_000 * |lines| <= 2 * (10_000 * tax - exact) <= 10_000 * |lines|
  {
    hide ExclusiveTax;
    if lines != [] {
      assert lines[0] in lines && forall line :: line in lines[1..] ==> line in lines;
      RoundingDrift(lines[1..], rule);
      LineDrift(lines[0].amount, rule.basisPoints);
      Distribute(lines[0].amount, NetOf(lines[1..]), rule.basisPoints);
    }
  }

  lemma Distribute(a: int, b: int, c: int)
    ensures (a + b) * c == a * c + b * c
  {
  }
}
