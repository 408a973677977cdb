/**
 * The HANA transaction controller (packages/hana/src/query-interface-typescript.internal.ts):
 * start, commit and rollback act on the autocommit flag of the transaction's connection
 * and on the log of SQL handed to `queryRaw`.
 *
 * Whether the database accepts an issued statement is an input (`reply`): the statement
 * is logged when it is sent, and a refusal is passed back to the caller before the
 * autocommit flag is touched.
 *
 * `TransactionSteps` is the same behaviour on values; the class's methods are proved to
 * follow it, and the properties of whole sequences of calls are proved about it.
 */
module TransactionSteps {
  import opened Wrappers
  import opened HanaQueryGenerator

  datatype Request = Start | Commit | Rollback

  /** What the caller passed: nothing usable, a root transaction, or one with a parent. */
  datatype Argument = NoTransaction | RootTransaction | NestedTransaction

  /** The autocommit flag of the connection in use and the SQL issued so far. */
  datatype Snapshot = Snapshot(autoCommit: bool, issued: seq<string>)

  datatype Call = Call(request: Request, argument: Argument, reply: Outcome<string>)

  function MissingTransactionMessage(request: Request): string
  {
    match request
    case Start => "Unable to start a transaction without transaction object!"
    case Commit => "Unable to commit a transaction without transaction object!"
    case Rollback => "Unable to rollback a transaction without transaction object!"
  }

  /** `sql && 'ROLLBACK'`: the literal ROLLBACK whenever the generator's rollback text is not empty. */
  function RollbackStatement(g: Generator): (r: string)
    ensures r == "ROLLBACK"
  {
    var sql := RollbackTransactionQuery(g);
    if sql == "" then sql else "ROLLBACK"
  }

  /** The statement a call sends to the database, if any. */
  function Statement(g: Generator, request: Request, argument: Argument): Option<string>
  {
    if argument == NoTransaction then None
    else match request
      case Start => None
      case Commit => if argument == NestedTransaction then None else Some(g.commitTransactionQuery)
      case Rollback => Some(RollbackStatement(g))
  }

  /** One call: its effect on the snapshot and what it returns. */
  function Step(g: Generator, s: Snapshot, call: Call): (Snapshot, Outcome<string>)
  {
    if call.argument == NoTransaction then (s, Fail(MissingTransactionMessage(call.request)))
    else if call.request == Start then (s.(autoCommit := false), Pass)
    else
      match Statement(g, call.request, call.argument)
      case None => (s, Pass)
      case Some(sql) =>
        var sent := s.(issued := s.issued + [sql]);
        if call.reply.Fail? then (sent, call.reply) else (sent.(autoCommit := true), Pass)
  }

  /** Without a transaction object a call only reports its own message: nothing is issued or toggled. */
  lemma StepWithoutTransaction(g: Generator, s: Snapshot, request: Request, reply: Outcome<string>)
    ensures Step(g, s, Call(request, NoTransaction, reply)) == (s, Fail(MissingTransactionMessage(request)))
  {
  }

  /** Each of start, commit and rollback reports a message of its own. */
  lemma MissingTransactionMessagesDistinct(a: Request, b: Request)
    ensures MissingTransactionMessage(a) == MissingTransactionMessage(b) <==> a == b
  {
    assert |MissingTransactionMessage(Start)| + 1 == |MissingTransactionMessage(Commit)|;
    assert |MissingTransactionMessage(Commit)| + 2 == |MissingTransactionMessage(Rollback)|;
  }

  /** Starting issues nothing and leaves autocommit off, whatever it was. */
  lemma StartTurnsAutoCommitOff(g: Generator, s: Snapshot, argument: Argument, reply: Outcome<string>)
    requires argument != NoTransaction
    ensures Step(g, s, Call(Start, argument, reply)).0 == Snapshot(false, s.issued)
    ensures Step(g, s, Call(Start, argument, reply)).1 == Pass
  {
  }

  /** Committing a savepoint does nothing at all. */
  lemma NestedCommitIsInert(g: Generator, s: Snapshot, reply: Outcome<string>)
    ensures Step(g, s, Call(Commit, NestedTransaction, reply)) == (s, Pass)
  {
  }

  /**
   * Commit of a root transaction and every rollback send exactly one statement; autocommit
   * is back on afterwards exactly when the database accepted it.
   */
  lemma CompletionIssuesOneStatement(g: Generator, s: Snapshot, call: Call)
    requires call.argument != NoTransaction
    requires call.request == Rollback || (call.request == Commit && call.argument == RootTransaction)
    ensures Step(g, s, call).0.issued
         == s.issued + [if call.request == Commit then g.commitTransactionQuery else "ROLLBACK"]
    ensures Step(g, s, call).0.autoCommit == (call.reply.Pass? || s.autoCommit)
    ensures Step(g, s, call).1 == call.reply
  {
  }

  /** The calls, applied in order. */
  function Run(g: Generator, s: Snapshot, calls: seq<Call>): Snapshot
  {
    if calls == [] then s else Step(g, Run(g, s, calls[..|calls| - 1]), calls[|calls| - 1]).0
  }

  /** How many of the calls send a statement. */
  function Sending(g: Generator, calls: seq<Call>): nat
  {
    if calls == [] then 0
    else Sending(g, calls[..|calls| - 1]) + (if Statement(g, calls[|calls| - 1].request, calls[|calls| - 1].argument).Some? then 1 else 0)
  }

  lemma StepIssued(g: Generator, s: Snapshot, call: Call)
    ensures Statement(g, call.request, call.argument).None? ==> Step(g, s, call).0.issued == s.issued
    ensures Statement(g, call.request, call.argument).Some? ==>
      Step(g, s, call).0.issued == s.issued + [Statement(g, call.request, call.argument).value]
  {
  }

  /**
   * Over any sequence of calls the log only grows, by one statement per sending call, and
   * every statement added is the commit query or the literal ROLLBACK: no savepoint is
   * ever created, released or rolled back to.
   */
  lemma {:induction false} RunIssuesOnlyCompletions(g: Generator, s: Snapshot, calls: seq<Call>)
    ensures |Run(g, s, calls).issued| == |s.issued| + Sending(g, calls)
    ensures Run(g, s, calls).issued[..|s.issued|] == s.issued
    ensures forall k :: |s.issued| <= k < |Run(g, s, calls).issued| ==>
      Run(g, s, calls).issued[k] == g.commitTransactionQuery || Run(g, s, calls).issued[k] == "ROLLBACK"
  {
    if calls != [] {
      var before := Run(g, s, calls[..|calls| - 1]);
      RunIssuesOnlyCompletions(g, s, calls[..|calls| - 1]);
      StepIssued(g, before, calls[|calls| - 1]);
    }
  }

  /** Calls that only commit savepoints or lack a transaction leave autocommit and the log as they were. */
  lemma {:induction false} InertCallsChangeNothing(g: Generator, s: Snapshot, calls: seq<Call>)
    requires forall i :: 0 <= i < |calls| ==>
      calls[i].argument == NoTransaction || (calls[i].request == Commit && calls[i].argument == NestedTransaction)
    ensures Run(g, s, calls) == s
  {
    if calls != [] {
      InertCallsChangeNothing(g, s, calls[..|calls| - 1]);
    }
  }

  /**
   * A root transaction that is started and then committed successfully leaves autocommit
   * on and has sent exactly the commit query, however many savepoint commits came between.
   */
  lemma {:induction false} StartThenCommit(g: Generator, s: Snapshot, between: seq<Call>, reply: Outcome<string>)
    requires forall i :: 0 <= i < |between| ==> between[i] == Call(Commit, NestedTransaction, reply)
    ensures Run(g, s, [Call(Start, RootTransaction, Pass)] + between + [Call(Commit, RootTransaction, Pass)])
         == Snapshot(true, s.issued + [g.commitTransactionQuery])
  {
    var started := Step(g, s, Call(Start, RootTransaction, Pass)).0;
    var calls := [Call(Start, RootTransaction, Pass)] + between;
    assert calls[..1] == [Call(Start, RootTransaction, Pass)];
    assert Run(g, s, calls[..1]) == started by {
      assert calls[..1][..0] == [];
    }
    InertSuffix(g, s, calls, 1);
    var all := calls + [Call(Commit, RootTransaction, Pass)];
    assert all[..|all| - 1] == calls;
  }

  /** Appending inert calls after a prefix does not change the outcome of the prefix. */
  lemma {:induction false} InertSuffix(g: Generator, s: Snapshot, calls: seq<Call>, n: nat)
    requires n <= |calls|
    requires forall i :: n <= i < |calls| ==> calls[i].request == Commit && calls[i].argument == NestedTransaction
    ensures Run(g, s, calls) == Run(g, s, calls[..n])
    decreases |calls|
  {
    if |calls| > n {
      var shorter := calls[..|calls| - 1];
      assert shorter[..n] == calls[..n];
      InertSuffix(g, s, shorter, n);
      NestedCommitIsInert(g, Run(g, s, shorter), calls[|calls| - 1].reply);
    } else {
      assert calls[..n] == calls;
    }
  }
}

module HanaTransactions {
  import opened Wrappers
  import opened HanaQueryGenerator
  import opened TransactionSteps

  /** The driver connection: only its autocommit flag is modelled. */
  class Connection {
    var autoCommit: bool

    constructor (autoCommit: bool)
      ensures this.autoCommit == autoCommit
    {
      this.autoCommit := autoCommit;
    }

    method SetAutoCommit(value: bool)
      modifies this
      ensures autoCommit == value
    {
      autoCommit := value;
    }
  }

  /** A transaction: its parent, if it is nested, and the connection it runs on. */
  class Transaction {
    const parent: Transaction?
    const connection: Connection

    constructor (parent: Transaction?, connection: Connection)
      ensures this.parent == parent && this.connection == connection
    {
      this.parent := parent;
      this.connection := connection;
    }
  }

  /** The `transaction` argument: absent, some other value, or a `Transaction`. */
  datatype TransactionArgument = Missing | NotATransaction | Given(transaction: Transaction)

  function ArgumentOf(t: TransactionArgument): Argument
  {
    match t
    case Given(transaction) => if transaction.parent != null then NestedTransaction else RootTransaction
    case _ => NoTransaction
  }

  /** What a call may write: the transaction's connection, when there is one. */
  function ConnectionOf(t: TransactionArgument): set<object>
  {
    if t.Given? then {t.transaction.connection} else {}
  }

  class HanaQueryInterface {
    const generator: Generator
    /** Every statement handed to `queryRaw`, in order. */
    var issued: seq<string>

    constructor (generator: Generator)
      ensures this.generator == generator && issued == []
    {
      this.generator := generator;
      issued := [];
    }

    /** `sequelize.queryRaw`: the statement is sent, and the database's reply comes back. */
    method QueryRaw(sql: string, reply: Outcome<string>) returns (r: Outcome<string>)
      modifies this
      ensures issued == old(issued) + [sql]
      ensures r == reply
    {
      issued := issued + [sql];
      r := reply;
    }

    method StartTransaction(t: TransactionArgument) returns (r: Outcome<string>)
      modifies ConnectionOf(t)
      ensures !t.Given? ==> r == Fail(MissingTransactionMessage(Start))
      ensures t.Given? ==> r == Pass && !t.transaction.connection.autoCommit
      ensures issued == old(issued)
      ensures t.Given? ==>
        Step(generator, Snapshot(old(t.transaction.connection.autoCommit), old(issued)), Call(Start, ArgumentOf(t), Pass))
        == (Snapshot(t.transaction.connection.autoCommit, issued), r)
    {
      if !t.Given? {
        return Fail(MissingTransactionMessage(Start));
      }
      var connection := t.transaction.connection;
      connection.SetAutoCommit(false);
      r := Pass;
    }

    method CommitTransaction(t: TransactionArgument, reply: Outcome<string>) returns (r: Outcome<string>)
      modifies this, ConnectionOf(t)
      ensures !t.Given? ==> r == Fail(MissingTransactionMessage(Commit)) && issued == old(issued)
      ensures t.Given? && t.transaction.parent != null ==>
        r == Pass && issued == old(issued) && t.transaction.connection.autoCommit == old(t.transaction.connection.autoCommit)
      ensures t.Given? && t.transaction.parent == null ==>
        issued == old(issued) + [generator.commitTransactionQuery] && r == reply
        && t.transaction.connection.autoCommit == (reply.Pass? || old(t.transaction.connection.autoCommit))
      ensures t.Given? ==>
        Step(generator, Snapshot(old(t.transaction.connection.autoCommit), old(issued)), Call(Commit, ArgumentOf(t), reply))
        == (Snapshot(t.transaction.connection.autoCommit, issued), r)
    {
      if !t.Given? {
        return Fail(MissingTransactionMessage(Commit));
      }
      var transaction := t.transaction;
      if transaction.parent != null {
        return Pass;
      }
      var sql := generator.commitTransactionQuery;
      r := QueryRaw(sql, reply);
      if r.Fail? {
        return;
      }
      var connection := transaction.connection;
      connection.SetAutoCommit(true);
    }

    method RollbackTransaction(t: TransactionArgument, reply: Outcome<string>) returns (r: Outcome<string>)
      modifies this, ConnectionOf(t)
      ensures !t.Given? ==> r == Fail(MissingTransactionMessage(Rollback)) && issued == old(issued)
      ensures t.Given? ==>
        issued == old(issued) + ["ROLLBACK"] && r == reply
        && t.transaction.connection.autoCommit == (reply.Pass? || old(t.transaction.connection.autoCommit))
      ensures t.Given? ==>
        Step(generator, Snapshot(old(t.transaction.connection.autoCommit), old(issued)), Call(Rollback, ArgumentOf(t), reply))
        == (Snapshot(t.transaction.connection.autoCommit, issued), r)
    {
      if !t.Given? {
        return Fail(MissingTransactionMessage(Rollback));
      }
      var sql := RollbackTransactionQuery(generator);
      r := QueryRaw(if sql == "" then sql else "ROLLBACK", reply);
      if r.Fail? {
        return;
      }
      var connection := t.transaction.connection;
      connection.SetAutoCommit(true);
    }
  }
}
