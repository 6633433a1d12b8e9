/** The `advisory_lock` object: where it takes its connection from, and the
    statements its `acquire`, `release`, `__enter__` and `__exit__` send through a
    cursor.  The database is seen only through the cursor interface the lock
    uses: statements are recorded in the order they are executed, and the one
    row a try-lock query returns is the server's answer, given as a parameter. */
module AdvisoryLocks {
  import opened Wrappers
  import opened PyValues
  import LockId
  import PercentFormat

  /** A database cursor as the lock uses it. */
  class Cursor {
    /** The statements executed on this cursor, oldest first. */
    var executed: seq<string>
    var closed: bool
    /** What the server answers to a statement on this cursor: `fetchone()[0]`. */
    const answer: bool

    constructor (answer: bool)
      ensures executed == [] && !closed && this.answer == answer
    {
      executed := [];
      closed := false;
      this.answer := answer;
    }

    /** `cursor.execute(command)`; a closed cursor refuses statements. */
    method Execute(command: string)
      requires !closed
      modifies this
      ensures executed == old(executed) + [command] && !closed
    {
      executed := executed + [command];
    }

    /** `cursor.fetchone()[0]`. */
    method FetchOne() returns (value: bool)
      ensures value == answer
    {
      value := answer;
    }

    /** `cursor.close()`; closing twice is harmless. */
    method Close()
      modifies this
      ensures closed && executed == old(executed)
    {
      closed := true;
    }
  }

  /** A database connection: it hands out new cursors. */
  class Connection {
    constructor ()
    {
    }

    /** `connection.cursor()`, for a server that will answer `answer`. */
    method OpenCursor(answer: bool) returns (c: Cursor)
      ensures fresh(c) && c.executed == [] && !c.closed && c.answer == answer
    {
      c := new Cursor(answer);
    }
  }

  /** Django's name for the default database. */
  const DefaultAlias: string := "default"

  /** Why `advisory_lock(...)` fails. */
  datatype InitError =
      /** `assert not using`: both a connection and a database alias were given. */
    | UsingWithConnection
      /** `connections[using]` has no database under that alias. */
    | UnknownAlias(alias: string)
      /** The `ValueError` raised for the lock id. */
    | InvalidKey(reason: LockId.KeyRejection)

  /** Python's truth value of `using`: None and the empty string are false. */
  predicate Truthy(using: Option<string>) {
    using.Some? && using.value != ""
  }

  /** What the constructor settles before it issues anything: the `using` it
      stores, the connection and the query. */
  datatype Setup = Setup(using: Option<string>, connection: Connection, query: LockId.Query)

  /** The constructor's checks in their order: the connection first (an
      explicit connection excludes an alias; otherwise the alias, `"default"`
      by default, is looked up), then the lock id. */
  function Initialize(lockId: Value, shared: bool, wait: bool, using: Option<string>,
                      connection: Connection?, connections: map<string, Connection>): (r: Result<Setup, InitError>)
    ensures r.Success? ==> LockId.Build(lockId, shared, wait) == Success(r.value.query)
    ensures connection != null && r.Success? ==> r.value.connection == connection && r.value.using == using
  {
    if connection != null && Truthy(using) then
      Failure(UsingWithConnection)
    else
      var alias := if using.Some? then using.value else DefaultAlias;
      if connection == null && alias !in connections then
        Failure(UnknownAlias(alias))
      else
        var chosen := if connection != null then connection else connections[alias];
        var stored := if connection != null then using else Some(alias);
        match LockId.Build(lockId, shared, wait)
        case Failure(e) => Failure(InvalidKey(e))
        case Success(q) => Success(Setup(stored, chosen, q))
  }

  /** `advisory_lock(lock_id, shared, wait, using, connection)`. */
  class AdvisoryLock {
    const lockId: Value
    const shared: bool
    const wait: bool
    const using: Option<string>
    const connection: Connection
    const queryBase: string
    const acquireParams: seq<Value>
    const releaseParams: seq<Value>
    var cursor: Cursor?
    /** The `acquired` attribute; None until `acquire` first sets it. */
    var acquired: Option<bool>

    /** The stored query is the one the options and the id call for; a cursor
        exists exactly once `acquire` has run; and a lock that is held has an
        open cursor to unlock it through. */
    predicate Valid()
      reads this, cursor
    {
      LockId.Build(lockId, shared, wait) == Success(LockId.Query(queryBase, acquireParams, releaseParams))
      && (acquired.None? <==> cursor == null)
      && (acquired == Some(true) ==> cursor != null && !cursor.closed)
    }

    /** The lock statement: `SELECT pg_[try_]advisory_lock[_shared](id)`. */
    function AcquireCommand(): string
      requires LockId.Build(lockId, shared, wait).Success?
    {
      LockId.CallText(LockId.AcquireFunctionName(shared, wait), LockId.Normalize(lockId).value)
    }

    /** The unlock statement: `SELECT pg_advisory_unlock[_shared](id)`. */
    function ReleaseCommand(): string
      requires LockId.Build(lockId, shared, wait).Success?
    {
      LockId.CallText(LockId.ReleaseFunctionName(shared), LockId.Normalize(lockId).value)
    }

    /** The constructor after its checks have passed. */
    constructor (lockId: Value, shared: bool, wait: bool, using: Option<string>, connection: Connection)
      requires LockId.Build(lockId, shared, wait).Success?
      ensures Valid()
      ensures this.lockId == lockId && this.shared == shared && this.wait == wait
      ensures this.using == using && this.connection == connection
      ensures cursor == null && acquired == None
    {
      var q := LockId.Build(lockId, shared, wait).value;
      this.lockId := lockId;
      this.shared := shared;
      this.wait := wait;
      this.using := using;
      this.connection := connection;
      queryBase := q.base;
      acquireParams := q.acquireParams;
      releaseParams := q.releaseParams;
      cursor := null;
      acquired := None;
    }

    /** The whole constructor: it fails as `Initialize` says, and otherwise
        stores what `Initialize` settles. */
    static method Create(lockId: Value, shared: bool, wait: bool, using: Option<string>,
                         connection: Connection?, connections: map<string, Connection>)
      returns (r: Result<AdvisoryLock, InitError>)
      ensures var setup := Initialize(lockId, shared, wait, using, connection, connections);
              (r.Failure? <==> setup.Failure?)
              && (r.Failure? ==> r.error == setup.error)
              && (r.Success? ==> fresh(r.value) && r.value.Valid()
                                 && r.value.lockId == lockId && r.value.shared == shared && r.value.wait == wait
                                 && r.value.using == setup.value.using
                                 && r.value.connection == setup.value.connection
                                 && r.value.cursor == null && r.value.acquired == None)
    {
      var setup := Initialize(lockId, shared, wait, using, connection, connections);
      match setup
      case Failure(e) =>
        r := Failure(e);
      case Success(s) =>
        var lock := new AdvisoryLock(lockId, shared, wait, s.using, s.connection);
        r := Success(lock);
    }

    /** `acquire()`: a new cursor, the lock statement on it, and the answer: a
        blocking lock is held once the statement returns, a try-lock holds
        whatever the server answered. */
    method Acquire(granted: bool) returns (result: bool)
      requires Valid()
      modifies this
      ensures Valid()
      ensures fresh(cursor) && cursor.executed == [AcquireCommand()] && !cursor.closed
      ensures acquired == Some(wait || granted) && result == acquired.value
    {
      LockId.Commands(lockId, shared, wait);
      var command := PercentFormat.Format(queryBase, acquireParams).value;
      var c := connection.OpenCursor(granted);
      cursor := c;
      c.Execute(command);
      if !wait {
        var value := c.FetchOne();
        acquired := Some(value);
      } else {
        acquired := Some(true);
      }
      result := acquired.value;
    }

    /** `release()`: the unlock statement only if the lock is held, then the
        cursor is closed.  Before any `acquire`, reading `acquired` raises
        `AttributeError` (`ok` is false) and nothing happens. */
    method Release() returns (ok: bool)
      requires Valid()
      modifies this, cursor
      ensures Valid()
      ensures ok == old(acquired).Some?
      ensures !ok ==> acquired == old(acquired) && cursor == old(cursor) == null
      ensures ok ==> cursor == old(cursor) && cursor != null && cursor.closed && acquired == Some(false)
                     && cursor.executed
                        == old(cursor.executed) + (if old(acquired) == Some(true) then [ReleaseCommand()] else [])
    {
      if acquired.None? {
        return false;
      }
      var c := cursor;
      if acquired == Some(true) {
        LockId.Commands(lockId, shared, wait);
        var command := PercentFormat.Format(queryBase, releaseParams).value;
        c.Execute(command);
        acquired := Some(false);
      } else {
        acquired := Some(false);
      }
      c.Close();
      ok := true;
    }

    /** `__enter__`: acquires and returns the answer. */
    method Enter(granted: bool) returns (result: bool)
      requires Valid()
      modifies this
      ensures Valid()
      ensures fresh(cursor) && cursor.executed == [AcquireCommand()] && !cursor.closed
      ensures acquired == Some(wait || granted) && result == acquired.value
    {
      result := Acquire(granted);
    }

    /** `__exit__`: releases. */
    method Exit() returns (ok: bool)
      requires Valid()
      modifies this, cursor
      ensures Valid()
      ensures ok == old(acquired).Some?
      ensures !ok ==> acquired == old(acquired) && cursor == old(cursor) == null
      ensures ok ==> cursor == old(cursor) && cursor != null && cursor.closed && acquired == Some(false)
                     && cursor.executed
                        == old(cursor.executed) + (if old(acquired) == Some(true) then [ReleaseCommand()] else [])
    {
      ok := Release();
    }
  }

  // ---------------------------------------------------------------------------
  // A `with advisory_lock(...)` block from start to finish

  /** A blocking lock over a block: the lock statement, then the unlock
      statement for the same id, on one cursor that ends closed. */
  method BlockingSession(lockId: Value, shared: bool, connection: Connection)
    returns (log: seq<string>, held: bool, closed: bool)
    requires LockId.Build(lockId, shared, true).Success?
    ensures held && closed
    ensures var a := LockId.Normalize(lockId).value;
            log == [LockId.CallText(LockId.AcquireFunctionName(shared, true), a),
                    LockId.CallText(LockId.ReleaseFunctionName(shared), a)]
  {
    var lock := new AdvisoryLock(lockId, shared, true, None, connection);
    held := lock.Enter(false);
    var c := lock.cursor;
    var ok := lock.Exit();
    log, closed := c.executed, c.closed;
  }

  /** A try-lock over a block: the unlock statement is sent exactly when the
      server granted the lock, and the cursor ends closed either way. */
  method TrySession(lockId: Value, shared: bool, connection: Connection, granted: bool)
    returns (log: seq<string>, held: bool, closed: bool)
    requires LockId.Build(lockId, shared, false).Success?
    ensures held == granted && closed
    ensures var a := LockId.Normalize(lockId).value;
            log == [LockId.CallText(LockId.AcquireFunctionName(shared, false), a)]
                   + (if granted then [LockId.CallText(LockId.ReleaseFunctionName(shared), a)] else [])
  {
    var lock := new AdvisoryLock(lockId, shared, false, None, connection);
    held := lock.Enter(granted);
    var c := lock.cursor;
    var ok := lock.Exit();
    log, closed := c.executed, c.closed;
  }

  /** Releasing twice sends the unlock statement once. */
  method ReleaseTwice(lockId: Value, shared: bool, wait: bool, connection: Connection, granted: bool)
    returns (log: seq<string>)
    requires LockId.Build(lockId, shared, wait).Success?
    ensures var a := LockId.Normalize(lockId).value;
            log == [LockId.CallText(LockId.AcquireFunctionName(shared, wait), a)]
                   + (if wait || granted then [LockId.CallText(LockId.ReleaseFunctionName(shared), a)] else [])
  {
    var lock := new AdvisoryLock(lockId, shared, wait, None, connection);
    var held := lock.Acquire(granted);
    var c := lock.cursor;
    var ok := lock.Release();
    ok := lock.Release();
    log := c.executed;
  }

  /** Releasing a lock that was never acquired raises and sends nothing. */
  method ReleaseBeforeAcquire(lockId: Value, shared: bool, wait: bool, connection: Connection)
    returns (ok: bool, sent: bool)
    requires LockId.Build(lockId, shared, wait).Success?
    ensures !ok && !sent
  {
    var lock := new AdvisoryLock(lockId, shared, wait, None, connection);
    ok := lock.Release();
    sent := lock.cursor != null;
  }

  // ---------------------------------------------------------------------------
  // The constructor's checks

  /** The constructor fails exactly when an alias comes with a connection, the
      alias is unknown, or the lock id is rejected; the connection is checked first. */
  lemma InitializeFailures(lockId: Value, shared: bool, wait: bool, using: Option<string>,
                           connection: Connection?, connections: map<string, Connection>)
    ensures var r := Initialize(lockId, shared, wait, using, connection, connections);
            var alias := if using.Some? then using.value else DefaultAlias;
            (r == Failure(UsingWithConnection) <==> connection != null && Truthy(using))
            && (r == Failure(UnknownAlias(alias)) <==> connection == null && alias !in connections)
            && (r.Failure? && r.error.InvalidKey?
                <==> (connection != null ==> !Truthy(using))
                     && (connection == null ==> alias in connections)
                     && LockId.Build(lockId, shared, wait).Failure?)
  {
  }

  /** Without an explicit connection, the lock uses the database under `using`,
      `"default"` when `using` is None, and stores that alias. */
  lemma InitializeLooksUpAlias(lockId: Value, shared: bool, wait: bool, using: Option<string>,
                               connections: map<string, Connection>)
    requires LockId.Build(lockId, shared, wait).Success?
    ensures var alias := if using.Some? then using.value else DefaultAlias;
            var r := Initialize(lockId, shared, wait, using, null, connections);
            (r.Success? <==> alias in connections)
            && (r.Success? ==> r.value.connection == connections[alias] && r.value.using == Some(alias))
  {
  }
}
