/**
 Nested transactions of the SQLite runtime: an engine over BEGIN, SAVEPOINT, RELEASE and ROLLBACK TO,
 and the plain meaning it refines, in which a failing transaction contributes nothing.

 Every nesting level numbers its savepoints from zero, so names repeat along the stack.
 */
module Savepoints {
  type Table = map<int, int>

  /** A statement fails on its own only as an insert of a key that exists. */
  datatype Statement = Insert(key: int, value: int) | Upsert(key: int, value: int) | Delete(key: int)

  /**
   What a transaction callback does next: run a statement, start nested transactions and wait for them
   (one, or several at once), or throw.  An error is either caught by the callback or ends it.
   */
  datatype Action =
    | Execute(statement: Statement, caught: bool)
    | Nest(children: seq<Callback>, caught: bool)
    | Throw

  datatype Callback = Callback(actions: seq<Action>)

  // ----- what a callback means

  datatype Outcome = Outcome(table: Table, thrown: bool)

  function Perform(table: Table, statement: Statement): Outcome {
    match statement
    case Insert(k, v) => if k in table then Outcome(table, true) else Outcome(table[k := v], false)
    case Upsert(k, v) => Outcome(table[k := v], false)
    case Delete(k) => Outcome(table - {k}, false)
  }

  function Act(table: Table, action: Action): Outcome
    decreases action, 0
  {
    match action
    case Execute(statement, caught) =>
      var done := Perform(table, statement);
      Outcome(done.table, done.thrown && !caught)
    case Nest(children, caught) =>
      var done := All(table, children);
      Outcome(done.table, done.thrown && !caught)
    case Throw => Outcome(table, true)
  }

  /** The actions in order, up to the first error that is not caught. */
  function Body(table: Table, actions: seq<Action>): Outcome
    decreases actions, 0
  {
    if actions == [] then Outcome(table, false)
    else
      var done := Act(table, actions[0]);
      if done.thrown then done else Body(done.table, actions[1..])
  }

  /** A transaction: its callback's effect, or none if the callback throws. */
  function Transaction(table: Table, callback: Callback): Outcome
    decreases callback, 0
  {
    var done := Body(table, callback.actions);
    if done.thrown then Outcome(table, true) else done
  }

  /** Transactions started together run one after the other, whether or not an earlier one failed. */
  function All(table: Table, children: seq<Callback>): Outcome
    decreases children, 0
  {
    if children == [] then Outcome(table, false)
    else
      var first := Transaction(table, children[0]);
      var others := All(first.table, children[1..]);
      Outcome(others.table, first.thrown || others.thrown)
  }

  // ----- the statements that survive

  /** The statements of `callback` that a commit keeps, in order: none of a transaction that throws. */
  function Kept(table: Table, callback: Callback): seq<Statement>
    decreases callback, 0
  {
    if Body(table, callback.actions).thrown then [] else KeptOf(table, callback.actions)
  }

  function KeptOf(table: Table, actions: seq<Action>): seq<Statement>
    decreases actions, 0
  {
    if actions == [] then []
    else
      var here :=
        match actions[0]
        case Execute(statement, _) => if Perform(table, statement).thrown then [] else [statement]
        case Nest(children, _) => KeptOfAll(table, children)
        case Throw => [];
      if Act(table, actions[0]).thrown then here else here + KeptOf(Act(table, actions[0]).table, actions[1..])
  }

  function KeptOfAll(table: Table, children: seq<Callback>): seq<Statement>
    decreases children, 0
  {
    if children == [] then []
    else Kept(table, children[0]) + KeptOfAll(Transaction(table, children[0]).table, children[1..])
  }

  /** Statements run one after the other outside any transaction. */
  function Replay(table: Table, statements: seq<Statement>): Table
    decreases |statements|
  {
    if statements == [] then table else Replay(Perform(table, statements[0]).table, statements[1..])
  }

  lemma {:induction false} ReplayAppends(table: Table, a: seq<Statement>, b: seq<Statement>)
    ensures Replay(table, a + b) == Replay(Replay(table, a), b)
    decreases |a|
  {
    if a == [] {
      assert a + b == b;
    } else {
      assert (a + b)[1..] == a[1..] + b;
      ReplayAppends(Perform(table, a[0]).table, a[1..], b);
    }
  }

  /** A transaction leaves exactly what its surviving statements, replayed flat, would leave. */
  lemma {:induction false} TransactionIsItsSurvivors(table: Table, callback: Callback)
    ensures Transaction(table, callback).table == Replay(table, Kept(table, callback))
    decreases callback, 0
  {
    BodyIsItsSurvivors(table, callback.actions);
  }

  lemma {:induction false} BodyIsItsSurvivors(table: Table, actions: seq<Action>)
    ensures Body(table, actions).table == Replay(table, KeptOf(table, actions))
    decreases actions, 0
  {
    if actions != [] {
      var next := Act(table, actions[0]);
      match actions[0]
      case Execute(statement, _) =>
        assert Replay(table, [statement]) == Perform(table, statement).table;
        if !next.thrown {
          BodyIsItsSurvivors(next.table, actions[1..]);
          var own := if Perform(table, statement).thrown then [] else [statement];
          ReplayAppends(table, own, KeptOf(next.table, actions[1..]));
        }
      case Nest(children, _) =>
        AllIsItsSurvivors(table, children);
        if !next.thrown {
          BodyIsItsSurvivors(next.table, actions[1..]);
          ReplayAppends(table, KeptOfAll(table, children), KeptOf(next.table, actions[1..]));
        }
      case Throw =>
    }
  }

  lemma {:induction false} AllIsItsSurvivors(table: Table, children: seq<Callback>)
    ensures All(table, children).table == Replay(table, KeptOfAll(table, children))
    decreases children, 0
  {
    if children != [] {
      var next := Transaction(table, children[0]).table;
      TransactionIsItsSurvivors(table, children[0]);
      AllIsItsSurvivors(next, children[1..]);
      ReplayAppends(table, Kept(table, children[0]), KeptOfAll(next, children[1..]));
    }
  }

  // ----- what an error does

  /** An error that the callback catches: an insert of a key that exists, or one nested transaction that throws. */
  predicate IsCaughtError(table: Table, action: Action) {
    || (action.Execute? && action.caught && action.statement.Insert? && action.statement.key in table)
    || (action.Nest? && action.caught && |action.children| == 1 && Throw in action.children[0].actions)
  }

  /** A callback that throws anywhere ends with an error, whatever else it does. */
  lemma {:induction false} ThrowEnds(table: Table, actions: seq<Action>)
    requires Throw in actions
    ensures Body(table, actions).thrown
    decreases |actions|
  {
    var done := Act(table, actions[0]);
    if !done.thrown {
      assert actions[0] != Throw;
      assert Throw in actions[1..] by {
        var i :| 0 <= i < |actions| && actions[i] == Throw;
        assert actions[1..][i - 1] == Throw;
      }
      ThrowEnds(done.table, actions[1..]);
    }
  }

  lemma {:induction false} ThrowingChild(table: Table, children: seq<Callback>, c: Callback)
    requires c in children && Throw in c.actions
    ensures All(table, children).thrown
    ensures |children| == 1 ==> All(table, children).table == table
    decreases |children|
  {
    var first := Transaction(table, children[0]);
    if children[0] == c {
      ThrowEnds(table, c.actions);
    } else {
      assert c in children[1..];
      ThrowingChild(first.table, children[1..], c);
    }
    if |children| == 1 { assert children[1..] == []; }
  }

  /** Every uncaught error ends a callback; after a caught one its later actions run on the tables from before it. */
  lemma ErrorsAreErrors(table: Table, actions: seq<Action>)
    ensures Throw in actions ==> Body(table, actions).thrown
    ensures actions != [] && actions[0].Execute? && !actions[0].caught && actions[0].statement.Insert?
            && actions[0].statement.key in table ==>
              Body(table, actions).thrown
    ensures actions != [] && actions[0].Nest? && !actions[0].caught
            && (exists c :: c in actions[0].children && Throw in c.actions) ==>
              Body(table, actions).thrown
    ensures actions != [] && IsCaughtError(table, actions[0]) ==> Body(table, actions) == Body(table, actions[1..])
    ensures |actions| == 2 && IsCaughtError(table, actions[0])
            && actions[1].Execute? && actions[1].statement.Upsert? ==>
              var next := actions[1].statement;
              Body(table, actions) == Outcome(table[next.key := next.value], false)
  {
    if Throw in actions { ThrowEnds(table, actions); }
    if actions != [] && actions[0].Nest? {
      forall c | c in actions[0].children && Throw in c.actions ensures All(table, actions[0].children).thrown {
        ThrowingChild(table, actions[0].children, c);
      }
      if |actions[0].children| == 1 && Throw in actions[0].children[0].actions {
        ThrowingChild(table, actions[0].children, actions[0].children[0]);
      }
    }
    if |actions| == 2 { assert actions[1..][1..] == [] && actions[1..][0] == actions[1]; }
  }

  // ----- the engine

  /** A savepoint on SQLite's stack: its name and the tables to return to. */
  datatype Frame = Frame(name: nat, saved: Table)

  /** The most recent frame of that name, if there is one; -1 otherwise. */
  function Find(stack: seq<Frame>, name: nat): (i: int)
    ensures -1 <= i < |stack|
    ensures i >= 0 ==> stack[i].name == name
    ensures forall j :: i < j < |stack| ==> stack[j].name != name
  {
    if stack == [] then -1
    else if stack[|stack| - 1].name == name then |stack| - 1
    else Find(stack[..|stack| - 1], name)
  }

  /** The async context of one transaction: the number its next nested transaction gets. */
  class Context {
    var nextSavepointId: nat
    constructor ()
      ensures nextSavepointId == 0
    {
      nextSavepointId := 0;
    }
  }

  class Runtime {
    var table: Table
    var stack: seq<Frame>
    var begun: bool
    var beginning: Table

    constructor (initial: Table)
      ensures table == initial && stack == [] && !begun
    {
      table, stack, begun, beginning := initial, [], false, initial;
    }

    method Savepoint(name: nat)
      modifies this`stack
      ensures stack == old(stack) + [Frame(name, table)]
    {
      stack := stack + [Frame(name, table)];
    }

    /** RELEASE drops the most recent savepoint of that name and everything above it. */
    method Release(name: nat) returns (found: bool)
      modifies this`stack
      ensures found <==> Find(old(stack), name) >= 0
      ensures stack == if found then old(stack)[..Find(old(stack), name)] else old(stack)
    {
      var i := Find(stack, name);
      found := i >= 0;
      if found { stack := stack[..i]; }
    }

    /** ROLLBACK TO restores the most recent savepoint of that name and keeps it open. */
    method RollbackTo(name: nat) returns (found: bool)
      modifies this`stack, this`table
      ensures found <==> Find(old(stack), name) >= 0
      ensures stack == if found then old(stack)[..Find(old(stack), name) + 1] else old(stack)
      ensures table == if found then old(stack)[Find(old(stack), name)].saved else old(table)
    {
      var i := Find(stack, name);
      found := i >= 0;
      if found { table, stack := stack[i].saved, stack[..i + 1]; }
    }

    method Execute(statement: Statement) returns (thrown: bool)
      modifies this`table
      ensures Outcome(table, thrown) == Perform(old(table), statement)
      ensures thrown <==> statement.Insert? && statement.key in old(table)
      ensures table == if thrown then old(table)
                       else if statement.Delete? then old(table) - {statement.key}
                       else old(table)[statement.key := statement.value]
    {
      match statement {
        case Insert(k, v) =>
          thrown := k in table;
          if !thrown { table := table[k := v]; }
        case Upsert(k, v) =>
          table, thrown := table[k := v], false;
        case Delete(k) =>
          table, thrown := table - {k}, false;
      }
    }

    /** Runs a callback's actions in its context, up to the first error it does not catch. */
    method RunActions(actions: seq<Action>, context: Context) returns (thrown: bool)
      modifies this`table, this`stack, context
      ensures Outcome(table, thrown) == Body(old(table), actions)
      ensures stack == old(stack)
      decreases actions, 1
    {
      thrown := false;
      ghost var expected := Body(table, actions);
      for i := 0 to |actions|
        invariant !thrown && stack == old(stack)
        invariant Body(table, actions[i..]) == expected
      {
        assert actions[i..][0] == actions[i] && actions[i..][1..] == actions[i + 1..];
        match actions[i] {
          case Execute(statement, caught) =>
            var failed := Execute(statement);
            thrown := failed && !caught;
          case Nest(children, caught) =>
            var failed := RunNested(children, context);
            thrown := failed && !caught;
          case Throw =>
            thrown := true;
        }
        if thrown { return; }
      }
    }

    /** Nested transactions started together: numbered when they are started, run in that order. */
    method RunNested(children: seq<Callback>, context: Context) returns (anyThrown: bool)
      modifies this`table, this`stack, context
      ensures Outcome(table, anyThrown) == All(old(table), children)
      ensures stack == old(stack)
      decreases children, 1
    {
      var first := context.nextSavepointId;
      context.nextSavepointId := first + |children|;
      anyThrown := false;
      ghost var expected := All(table, children);
      for i := 0 to |children|
        invariant stack == old(stack)
        invariant All(table, children[i..]).table == expected.table
        invariant (anyThrown || All(table, children[i..]).thrown) == expected.thrown
      {
        assert children[i..][0] == children[i] && children[i..][1..] == children[i + 1..];
        var thrown := RunSavepoint(children[i], first + i);
        anyThrown := anyThrown || thrown;
      }
    }

    /** One nested transaction under its savepoint name, which may also name frames further down the stack. */
    method RunSavepoint(callback: Callback, name: nat) returns (thrown: bool)
      modifies this`table, this`stack
      ensures Outcome(table, thrown) == Transaction(old(table), callback)
      ensures stack == old(stack)
      ensures thrown ==> table == old(table)
      ensures Throw in callback.actions ==> thrown
      ensures callback.actions != [] && callback.actions[0].Execute? && !callback.actions[0].caught
              && callback.actions[0].statement.Insert? && callback.actions[0].statement.key in old(table) ==>
                thrown
      ensures callback.actions != [] && callback.actions[0].Nest? && !callback.actions[0].caught
              && (exists c :: c in callback.actions[0].children && Throw in c.actions) ==>
                thrown
      ensures |callback.actions| == 2 && IsCaughtError(old(table), callback.actions[0])
              && callback.actions[1].Execute? && callback.actions[1].statement.Upsert? ==>
                var next := callback.actions[1].statement;
                !thrown && table == old(table)[next.key := next.value]
      decreases callback, 1
    {
      ErrorsAreErrors(table, callback.actions);
      var context := new Context();
      Savepoint(name);
      ghost var pushed := stack;
      thrown := RunActions(callback.actions, context);
      FindsOwnFrame(old(stack), Frame(name, old(table)));
      assert stack == pushed;
      if thrown {
        var _ := RollbackTo(name);
        assert stack == pushed;
      }
      var _ := Release(name);
    }

    /** The outermost transaction. */
    method RunTransaction(callback: Callback) returns (thrown: bool)
      requires !begun && stack == []
      modifies this
      ensures Outcome(table, thrown) == Transaction(old(table), callback)
      ensures !begun && stack == []
      ensures thrown ==> table == old(table)
      ensures Throw in callback.actions ==> thrown
      ensures callback.actions != [] && callback.actions[0].Execute? && !callback.actions[0].caught
              && callback.actions[0].statement.Insert? && callback.actions[0].statement.key in old(table) ==>
                thrown
      ensures callback.actions != [] && callback.actions[0].Nest? && !callback.actions[0].caught
              && (exists c :: c in callback.actions[0].children && Throw in c.actions) ==>
                thrown
      ensures |callback.actions| == 2 && IsCaughtError(old(table), callback.actions[0])
              && callback.actions[1].Execute? && callback.actions[1].statement.Upsert? ==>
                var next := callback.actions[1].statement;
                !thrown && table == old(table)[next.key := next.value]
    {
      ErrorsAreErrors(table, callback.actions);
      var context := new Context();
      begun, beginning := true, table;
      thrown := RunActions(callback.actions, context);
      if thrown {
        table := beginning;
      }
      begun, stack := false, [];
    }
  }

  /** The frame just pushed is the one its name resolves to, whatever names are below it. */
  lemma FindsOwnFrame(below: seq<Frame>, own: Frame)
    ensures Find(below + [own], own.name) == |below|
    ensures (below + [own])[..|below|] == below && (below + [own])[..|below| + 1] == below + [own]
  {
  }

  // ----- statements of the parent while a child is open

  /**
   What survives of a child around a parent's statement, if the child does not throw; a failing statement has no
   effect.
   */
  function Around(table: Table, before: seq<Action>, statement: Statement, later: seq<Action>): seq<Statement> {
    var here := Perform(Body(table, before).table, statement);
    KeptOf(table, before) + (if here.thrown then [] else [statement]) + KeptOf(here.table, later)
  }

  /**
   A parent statement run while a nested transaction is open lands inside its savepoint, between what the child has run
   (`before`) and what it still runs (`later`): it is among the statements that survive exactly when the child does not
   throw after it.
   */
  method ParentStatementDuringChild(
      runtime: Runtime, name: nat, before: seq<Action>, statement: Statement, later: seq<Action>)
    returns (thrown: bool)
    requires !Body(runtime.table, before).thrown
    modifies runtime`table, runtime`stack
    ensures var start := old(runtime.table);
            var landed := Perform(Body(start, before).table, statement).table;
            && thrown == Body(landed, later).thrown
            && runtime.table == Replay(start, if thrown then [] else Around(start, before, statement, later))
    ensures runtime.stack == old(runtime.stack)
  {
    var context := new Context();
    ghost var start := runtime.table;
    runtime.Savepoint(name);
    ghost var pushed := runtime.stack;
    var _ := runtime.RunActions(before, context);
    var _ := runtime.Execute(statement);
    ghost var landed := runtime.table;
    thrown := runtime.RunActions(later, context);
    FindsOwnFrame(old(runtime.stack), Frame(name, old(runtime.table)));
    if thrown {
      var _ := runtime.RollbackTo(name);
      assert runtime.stack == pushed;
    } else {
      SurvivorsAround(start, before, statement, later);
    }
    var _ := runtime.Release(name);
  }

  lemma SurvivorsAround(table: Table, before: seq<Action>, statement: Statement, later: seq<Action>)
    ensures var landed := Perform(Body(table, before).table, statement).table;
            Body(landed, later).table == Replay(table, Around(table, before, statement, later))
  {
    var here := Perform(Body(table, before).table, statement);
    var own := if here.thrown then [] else [statement];
    BodyIsItsSurvivors(table, before);
    BodyIsItsSurvivors(here.table, later);
    ReplayAppends(table, KeptOf(table, before), own);
    ReplayAppends(table, KeptOf(table, before) + own, KeptOf(here.table, later));
    assert Replay(Body(table, before).table, own) == here.table;
  }
}
