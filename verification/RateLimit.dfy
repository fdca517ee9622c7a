/**
 Fixed-window rate limiting.

 A call deletes the expired buckets and then counts itself in its window's bucket: two statements, between which the
 statements of other calls may run.  Times are milliseconds.
 */
module RateLimit {
  import opened Basics

  datatype Rule = Rule(limit: int, windowSeconds: int)
  /** A bucket's unique key: tenant, identifier and scope together, and the start of the window. */
  datatype Slot = Slot(key: Id, start: int)
  datatype Bucket = Bucket(count: int, expiresAt: int)

  datatype Step = Sweep(now: int) | Hit(key: Id, at: int)

  function WindowMs(rule: Rule): int { rule.windowSeconds * 1000 }

  predicate Positive(rule: Rule) { rule.limit >= 1 && rule.windowSeconds >= 1 }

  function WindowStart(rule: Rule, at: int): int
    requires Positive(rule)
  {
    at / WindowMs(rule) * WindowMs(rule)
  }

  // ----- statements

  function Swept(buckets: map<Slot, Bucket>, now: int): map<Slot, Bucket> {
    map s | s in buckets && buckets[s].expiresAt > now :: buckets[s]
  }

  function Counted(buckets: map<Slot, Bucket>, s: Slot, expiresAt: int): map<Slot, Bucket> {
    buckets[s := Bucket(if s in buckets then buckets[s].count + 1 else 1, expiresAt)]
  }

  /** The rules are one per key: the calls of a key all use the same limit and window. */
  ghost predicate Rules(rules: Id -> Rule) { forall k :: Positive(rules(k)) }

  function SlotOf(rules: Id -> Rule, step: Step): Slot
    requires step.Hit? && Positive(rules(step.key))
  {
    Slot(step.key, WindowStart(rules(step.key), step.at))
  }

  function Next(rules: Id -> Rule, buckets: map<Slot, Bucket>, step: Step): map<Slot, Bucket>
    requires step.Hit? ==> Positive(rules(step.key))
  {
    match step
    case Sweep(now) => Swept(buckets, now)
    case Hit(key, at) => Counted(buckets, SlotOf(rules, step), SlotOf(rules, step).start + WindowMs(rules(key)))
  }

  /** The buckets after the steps, from none. */
  ghost function After(rules: Id -> Rule, steps: seq<Step>): map<Slot, Bucket>
    requires Rules(rules)
    decreases |steps|
  {
    if steps == [] then map[] else Next(rules, After(rules, steps[..|steps| - 1]), steps[|steps| - 1])
  }

  // ----- what is counted

  predicate IsHit(rules: Id -> Rule, step: Step, s: Slot)
    requires step.Hit? ==> Positive(rules(step.key))
  {
    step.Hit? && SlotOf(rules, step) == s
  }

  ghost function Hits(rules: Id -> Rule, steps: seq<Step>, s: Slot): nat
    requires Rules(rules)
    decreases |steps|
  {
    if steps == [] then 0
    else Hits(rules, steps[..|steps| - 1], s) + if IsHit(rules, steps[|steps| - 1], s) then 1 else 0
  }

  /** Some call of the window came before a sweep past the window's end. */
  ghost predicate Lost(rules: Id -> Rule, steps: seq<Step>, s: Slot)
    requires Rules(rules)
    decreases |steps|
  {
    if steps == [] then false
    else
      var before, step := steps[..|steps| - 1], steps[|steps| - 1];
      Lost(rules, before, s)
      || (step.Sweep? && step.now >= s.start + WindowMs(rules(s.key)) && Hits(rules, before, s) > 0)
  }

  function CountIn(buckets: map<Slot, Bucket>, s: Slot): int { if s in buckets then buckets[s].count else 0 }

  /** A bucket holds the number of its window's calls exactly while none of them has been swept away. */
  lemma {:induction false} CountsAreHits(rules: Id -> Rule, steps: seq<Step>, s: Slot)
    requires Rules(rules)
    ensures var buckets := After(rules, steps);
            (s in buckets ==> buckets[s].expiresAt == s.start + WindowMs(rules(s.key)) && buckets[s].count >= 1)
            && CountIn(buckets, s) <= Hits(rules, steps, s)
            && (CountIn(buckets, s) == Hits(rules, steps, s) <==> !Lost(rules, steps, s))
    decreases |steps|
  {
    if steps != [] {
      CountsAreHits(rules, steps[..|steps| - 1], s);
    }
  }

  /** The count a call gets, after the steps before it. */
  ghost function CountOf(rules: Id -> Rule, before: seq<Step>, hit: Step): int
    requires Rules(rules) && hit.Hit?
  {
    Next(rules, After(rules, before), hit)[SlotOf(rules, hit)].count
  }

  /** A call is told its number in its window exactly when no call of the window before it has been swept away. */
  lemma CountIsTheNumberInTheWindow(rules: Id -> Rule, before: seq<Step>, hit: Step)
    requires Rules(rules) && hit.Hit?
    ensures var s := SlotOf(rules, hit);
            CountOf(rules, before, hit) == Hits(rules, before, s) + 1 <==> !Lost(rules, before, s)
  {
    CountsAreHits(rules, before, SlotOf(rules, hit));
  }

  /** A call whose own window ended before its counting statement ran starts the count again. */
  lemma LateHitStartsOver(rules: Id -> Rule, before: seq<Step>, now: int, hit: Step)
    requires Rules(rules) && hit.Hit? && now >= SlotOf(rules, hit).start + WindowMs(rules(hit.key))
    ensures CountOf(rules, before + [Sweep(now)], hit) == 1
  {
    CountsAreHits(rules, before, SlotOf(rules, hit));
    assert (before + [Sweep(now)])[..|before|] == before;
  }

  // ----- limits

  /** Some call of the window counted itself after an earlier one had been swept away. */
  ghost predicate Restarted(rules: Id -> Rule, steps: seq<Step>, s: Slot)
    requires Rules(rules)
    decreases |steps|
  {
    if steps == [] then false
    else
      var before, step := steps[..|steps| - 1], steps[|steps| - 1];
      Restarted(rules, before, s) || (IsHit(rules, step, s) && Lost(rules, before, s))
  }

  /** The call at `i`, if it is one of the window, is told its number there. */
  ghost predicate Numbered(rules: Id -> Rule, steps: seq<Step>, s: Slot, i: nat)
    requires Rules(rules) && i < |steps|
  {
    IsHit(rules, steps[i], s) ==> CountOf(rules, steps[..i], steps[i]) == Hits(rules, steps[..i], s) + 1
  }

  /** All calls of a window are told their numbers exactly when none of them restarted it. */
  lemma {:induction false} NumberedUnlessRestarted(rules: Id -> Rule, steps: seq<Step>, s: Slot)
    requires Rules(rules)
    ensures (forall i :: 0 <= i < |steps| ==> Numbered(rules, steps, s, i)) <==> !Restarted(rules, steps, s)
    decreases |steps|
  {
    if steps != [] {
      var n := |steps| - 1;
      var before, step := steps[..n], steps[n];
      NumberedUnlessRestarted(rules, before, s);
      if IsHit(rules, step, s) { CountIsTheNumberInTheWindow(rules, before, step); }
      hide CountOf, Hits, Lost;
      assert forall i :: 0 <= i < n ==> steps[..i] == before[..i] && steps[i] == before[i];
      assert forall i :: 0 <= i < n ==> Numbered(rules, steps, s, i) == Numbered(rules, before, s, i);
      assert Numbered(rules, steps, s, n) <==> !(IsHit(rules, step, s) && Lost(rules, before, s));
    }
  }

  /** How many calls of `key` made between two times are allowed. */
  ghost function AllowedBetween(rules: Id -> Rule, steps: seq<Step>, key: Id, from: int, to: int): nat
    requires Rules(rules)
    decreases |steps|
  {
    if steps == [] then 0
    else
      var before, step := steps[..|steps| - 1], steps[|steps| - 1];
      AllowedBetween(rules, before, key, from, to)
      + if step.Hit? && step.key == key && from <= step.at <= to && CountOf(rules, before, step) <= rules(key).limit
        then 1 else 0
  }

  ghost function AllowedIn(rules: Id -> Rule, steps: seq<Step>, s: Slot): nat
    requires Rules(rules)
    decreases |steps|
  {
    if steps == [] then 0
    else
      var before, step := steps[..|steps| - 1], steps[|steps| - 1];
      AllowedIn(rules, before, s)
      + if IsHit(rules, step, s) && CountOf(rules, before, step) <= rules(s.key).limit then 1 else 0
  }

  /** In a window that was not restarted exactly the first `limit` calls are allowed. */
  lemma {:induction false} AllowedInWindow(rules: Id -> Rule, steps: seq<Step>, s: Slot)
    requires Rules(rules) && !Restarted(rules, steps, s)
    ensures var hits, limit := Hits(rules, steps, s), rules(s.key).limit;
            AllowedIn(rules, steps, s) == if hits < limit then hits else limit
    decreases |steps|
  {
    if steps != [] {
      var before, step := steps[..|steps| - 1], steps[|steps| - 1];
      AllowedInWindow(rules, before, s);
      if IsHit(rules, step, s) { CountIsTheNumberInTheWindow(rules, before, step); }
    }
  }

  /** How many sweeps deleted the window's bucket. */
  ghost function Deletions(rules: Id -> Rule, steps: seq<Step>, s: Slot): nat
    requires Rules(rules)
    decreases |steps|
  {
    if steps == [] then 0
    else
      var before, step := steps[..|steps| - 1], steps[|steps| - 1];
      Deletions(rules, before, s)
      + if s in After(rules, before) && s !in After(rules, steps) then 1 else 0
  }

  /** Only a sweep past the end of a window deletes its bucket, if there is one. */
  lemma DeletionsAreSweeps(rules: Id -> Rule, steps: seq<Step>, step: Step, s: Slot)
    requires Rules(rules)
    ensures Deletions(rules, [], s) == 0
    ensures Deletions(rules, steps + [step], s)
            == Deletions(rules, steps, s)
               + if step.Sweep? && step.now >= s.start + rules(s.key).windowSeconds * 1000 && s in After(rules, steps)
                 then 1 else 0
  {
    CountsAreHits(rules, steps, s);
    assert (steps + [step])[..|steps|] == steps;
    hide Hits, Lost;
  }

  /** A lone call is allowed, and counted between its own time and itself. */
  lemma LoneCallIsAllowed(rules: Id -> Rule, key: Id, at: int)
    requires Rules(rules)
    ensures AllowedBetween(rules, [Hit(key, at)], key, at, at) == 1
  {
    assert [Hit(key, at)][..0] == [];
  }

  /** In any window each deletion of its bucket allows at most `limit` calls more. */
  lemma {:induction false} AllowedUpToDeletions(rules: Id -> Rule, steps: seq<Step>, s: Slot)
    requires Rules(rules)
    ensures var count, limit := CountIn(After(rules, steps), s), rules(s.key).limit;
            AllowedIn(rules, steps, s) <= limit * Deletions(rules, steps, s) + if count < limit then count else limit
    decreases |steps|
  {
    if steps != [] {
      var before, step := steps[..|steps| - 1], steps[|steps| - 1];
      AllowedUpToDeletions(rules, before, s);
      CountsAreHits(rules, before, s);
      OneMore(rules(s.key).limit, Deletions(rules, before, s));
      hide Hits, Lost;
    }
  }

  lemma OneMore(limit: int, n: nat)
    ensures limit * (n + 1) == limit * n + limit
  {
  }

  lemma StartIs(rule: Rule, at: int)
    requires Positive(rule)
    ensures WindowStart(rule, at) <= at < WindowStart(rule, at) + WindowMs(rule)
  {
  }

  /** Times no further apart than a window lie in one aligned window or in two neighbouring ones. */
  lemma TwoWindows(rule: Rule, from: int, at: int)
    requires Positive(rule) && from <= at <= from + WindowMs(rule)
    ensures WindowStart(rule, at) in {WindowStart(rule, from), WindowStart(rule, from) + WindowMs(rule)}
  {
    var w := WindowMs(rule);
    StartIs(rule, from);
    StartIs(rule, at);
    var a, b := from / w, at / w;
    assert a * w <= b * w + w - 1 && b * w <= a * w + 2 * w - 1;
    FewerMultiples(w, a, b);
  }

  lemma FewerMultiples(w: int, a: int, b: int)
    requires w > 0 && a * w <= b * w + w - 1 && b * w <= a * w + 2 * w - 1
    ensures b == a || b == a + 1
    ensures b == a + 1 ==> b * w == a * w + w
  {
    if b < a { Multiples(w, b + 1, a); }
    if b > a + 1 { Multiples(w, a + 2, b); }
  }

  lemma {:induction false} AllowedBySlots(rules: Id -> Rule, steps: seq<Step>, key: Id, from: int, to: int)
    requires Rules(rules) && to <= from + WindowMs(rules(key))
    ensures var start := WindowStart(rules(key), from);
            AllowedBetween(rules, steps, key, from, to)
            <= AllowedIn(rules, steps, Slot(key, start))
               + AllowedIn(rules, steps, Slot(key, start + WindowMs(rules(key))))
    decreases |steps|
  {
    if steps != [] {
      var before, step := steps[..|steps| - 1], steps[|steps| - 1];
      AllowedBySlots(rules, before, key, from, to);
      hide CountOf, WindowStart;
      if step.Hit? && step.key == key && from <= step.at <= to { TwoWindows(rules(key), from, step.at); }
    }
  }

  /** So no stretch of time as long as a window sees more than twice the limit allowed. */
  lemma AtMostTwiceTheLimit(rules: Id -> Rule, steps: seq<Step>, key: Id, from: int, to: int)
    requires Rules(rules) && to <= from + WindowMs(rules(key))
    requires var start := WindowStart(rules(key), from);
             !Restarted(rules, steps, Slot(key, start))
             && !Restarted(rules, steps, Slot(key, start + WindowMs(rules(key))))
    ensures AllowedBetween(rules, steps, key, from, to) <= 2 * rules(key).limit
  {
    var start := WindowStart(rules(key), from);
    AllowedBySlots(rules, steps, key, from, to);
    AllowedInWindow(rules, steps, Slot(key, start));
    AllowedInWindow(rules, steps, Slot(key, start + WindowMs(rules(key))));
  }

  /** A window's calls are told growing counts, so at most one is told `limit + 1` and writes the audit event. */
  lemma AuditedOncePerWindow(rules: Id -> Rule, steps: seq<Step>, i: nat, j: nat)
    requires Rules(rules) && i < j < |steps| && steps[i].Hit? && steps[j].Hit?
    requires SlotOf(rules, steps[i]) == SlotOf(rules, steps[j])
             && !Restarted(rules, steps[..j + 1], SlotOf(rules, steps[i]))
    ensures CountOf(rules, steps[..i], steps[i]) < CountOf(rules, steps[..j], steps[j])
  {
    var s := SlotOf(rules, steps[i]);
    var until := steps[..j + 1];
    NumberedUnlessRestarted(rules, until, s);
    assert until[..i] == steps[..i] && until[..j] == steps[..j];
    assert Numbered(rules, until, s, i) && Numbered(rules, until, s, j);
    HitsGrow(rules, steps[..j], i + 1, s);
    assert steps[..j][..i + 1] == steps[..i] + [steps[i]];
    assert steps[..i + 1][..i] == steps[..i];
  }

  lemma {:induction false} HitsGrow(rules: Id -> Rule, steps: seq<Step>, n: nat, s: Slot)
    requires Rules(rules) && n <= |steps|
    ensures Hits(rules, steps[..n], s) <= Hits(rules, steps, s)
    decreases |steps|
  {
    if n < |steps| {
      assert steps[..|steps| - 1][..n] == steps[..n];
      HitsGrow(rules, steps[..|steps| - 1], n, s);
    } else {
      assert steps[..n] == steps;
    }
  }

  // ----- when a window is restarted

  datatype Call = Call(key: Id, at: int)

  /** Calls that run undisturbed, each with its sweep and its count at the time it read from the clock. */
  ghost function Undisturbed(calls: seq<Call>): seq<Step> {
    if calls == [] then []
    else
      var last := calls[|calls| - 1];
      Undisturbed(calls[..|calls| - 1]) + [Sweep(last.at)] + [Hit(last.key, last.at)]
  }

  ghost predicate InOrder(calls: seq<Call>) {
    forall i, j :: 0 <= i < j < |calls| ==> calls[i].at <= calls[j].at
  }

  lemma LastTwo(steps: seq<Step>, sweep: Step, hit: Step)
    ensures var all := steps + [sweep] + [hit];
            && all[..|all| - 1] == steps + [sweep] && all[|all| - 1] == hit
            && (steps + [sweep])[..|steps|] == steps && (steps + [sweep])[|steps|] == sweep
  {
  }

  /** Undisturbed calls never restart a window, and they only lose one whose end has passed. */
  lemma {:induction false} UndisturbedRestartsNothing(rules: Id -> Rule, calls: seq<Call>, s: Slot)
    requires Rules(rules) && InOrder(calls)
    ensures !Restarted(rules, Undisturbed(calls), s)
    ensures Lost(rules, Undisturbed(calls), s) ==>
              calls != [] && calls[|calls| - 1].at >= s.start + WindowMs(rules(s.key))
    decreases |calls|
  {
    if calls != [] {
      var n := |calls| - 1;
      var before, last := Undisturbed(calls[..n]), calls[n];
      UndisturbedRestartsNothing(rules, calls[..n], s);
      LastTwo(before, Sweep(last.at), Hit(last.key, last.at));
      assert n > 0 ==> calls[..n][n - 1].at <= last.at;
      StartIs(rules(last.key), last.at);
      assert Undisturbed(calls) == before + [Sweep(last.at)] + [Hit(last.key, last.at)];
      assert Lost(rules, before + [Sweep(last.at)], s) ==> last.at >= s.start + WindowMs(rules(s.key));
    }
  }

  /** So with undisturbed calls no stretch as long as a window ever has more than twice the limit allowed. */
  lemma UndisturbedAtMostTwice(rules: Id -> Rule, calls: seq<Call>, key: Id, from: int, to: int)
    requires Rules(rules) && InOrder(calls) && to <= from + WindowMs(rules(key))
    ensures AllowedBetween(rules, Undisturbed(calls), key, from, to) <= 2 * rules(key).limit
  {
    var start := WindowStart(rules(key), from);
    UndisturbedRestartsNothing(rules, calls, Slot(key, start));
    UndisturbedRestartsNothing(rules, calls, Slot(key, start + WindowMs(rules(key))));
    AtMostTwiceTheLimit(rules, Undisturbed(calls), key, from, to);
  }

  /**
   In a window that has had its limit, a call that counts itself after a sweep past the end is allowed all the same.
   */
  lemma LateCallExceedsTheLimit(rules: Id -> Rule, before: seq<Step>, now: int, hit: Step)
    requires Rules(rules) && hit.Hit? && now >= SlotOf(rules, hit).start + WindowMs(rules(hit.key))
    requires var s := SlotOf(rules, hit); !Restarted(rules, before, s) && Hits(rules, before, s) >= rules(hit.key).limit
    ensures var s, after := SlotOf(rules, hit), before + [Sweep(now)] + [hit];
            Restarted(rules, after, s) && AllowedIn(rules, after, s) == rules(hit.key).limit + 1
  {
    var s := SlotOf(rules, hit);
    LastTwo(before, Sweep(now), hit);
    AllowedInWindow(rules, before, s);
    LateHitStartsOver(rules, before, now, hit);
    hide CountOf, After, WindowStart;
    assert Lost(rules, before + [Sweep(now)], s);
    assert AllowedIn(rules, before + [Sweep(now)], s) == AllowedIn(rules, before, s);
  }

  /** The shortest such run: a call read the clock at 900 ms and counts itself after another one's sweep at 1100 ms. */
  lemma RaceExceedsTheLimit(rules: Id -> Rule)
    requires Rules(rules) && rules(7) == Rule(1, 1)
    ensures AllowedIn(rules, [Sweep(500)] + [Hit(7, 500)] + [Sweep(1100)] + [Hit(7, 900)], Slot(7, 0)) == 2
  {
    var calls, s := [Call(7, 500)], Slot(7, 0);
    assert Undisturbed(calls[..0]) == [];
    assert Undisturbed(calls) == [] + [Sweep(500)] + [Hit(7, 500)] == [Sweep(500)] + [Hit(7, 500)];
    UndisturbedRestartsNothing(rules, calls, s);
    assert Hits(rules, [Sweep(500)] + [Hit(7, 500)], s) >= 1 by { LastTwo([], Sweep(500), Hit(7, 500)); }
    LateCallExceedsTheLimit(rules, [Sweep(500)] + [Hit(7, 500)], 1100, Hit(7, 900));
  }

  // ----- one call

  datatype Answer = BadRule | Answer(allowed: bool, remaining: int, resetAt: int, retryAfterSeconds: int, audited: bool)

  function Ceil(a: int, b: int): int
    requires b > 0
  {
    (a + b - 1) / b
  }

  class Limiter {
    var buckets: map<Slot, Bucket>

    constructor ()
      ensures buckets == map[]
    {
      buckets := map[];
    }

    /**
     A call nothing interrupts: waiting as long as it says always reaches the end of the window, and not much more.
     */
    method ConsumeRateLimit(key: Id, rule: Rule, now: int) returns (answer: Answer)
      modifies this
      ensures answer.BadRule? <==> rule.limit < 1 || rule.windowSeconds < 1
      ensures answer.BadRule? ==> buckets == old(buckets)
      ensures answer.Answer? ==>
        var rules := (k: Id) => rule;
        var s := SlotOf(rules, Hit(key, now));
        buckets == Next(rules, Next(rules, old(buckets), Sweep(now)), Hit(key, now))
        && s in buckets
        && (answer.allowed <==> buckets[s].count <= rule.limit)
        && (answer.audited <==> buckets[s].count == rule.limit + 1)
        && answer.resetAt == s.start + WindowMs(rule) > now
        && answer.remaining == (if buckets[s].count <= rule.limit then rule.limit - buckets[s].count else 0)
      ensures answer.Answer? ==>
        now + answer.retryAfterSeconds * 1000 >= answer.resetAt
        && (answer.retryAfterSeconds - 1) * 1000 < answer.resetAt - now
      ensures answer.Answer? ==>
        var window := rule.windowSeconds * 1000;
        var s := Slot(key, now / window * window);
        && s in buckets && buckets[s].expiresAt == now / window * window + window == answer.resetAt
        && buckets[s].count
           == (if s in old(buckets) && old(buckets)[s].expiresAt > now then old(buckets)[s].count + 1 else 1)
        && forall o :: o != s ==>
             if o in old(buckets) && old(buckets)[o].expiresAt > now
             then o in buckets && buckets[o] == old(buckets)[o] else o !in buckets
    {
      if rule.limit < 1 || rule.windowSeconds < 1 {
        return BadRule;
      }
      var windowMs := rule.windowSeconds * 1000;
      var start := now / windowMs * windowMs;
      var expiresAt := start + windowMs;
      StartIs(rule, now);
      buckets := map s | s in buckets && buckets[s].expiresAt > now :: buckets[s];
      var slot := Slot(key, start);
      var count := 1;
      if slot in buckets {
        count := buckets[slot].count + 1;
      }
      buckets := buckets[slot := Bucket(count, expiresAt)];
      var remaining := if rule.limit - count > 0 then rule.limit - count else 0;
      var retry := Ceil(expiresAt - now, 1000);
      answer := Answer(
        count <= rule.limit, remaining, expiresAt, if retry > 1 then retry else 1, count == rule.limit + 1);
    }
  }
}
