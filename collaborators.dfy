/** The three collaborators UserService is wired to, reduced to the contracts it
    relies on: a per-key lock registry, the authorization RPC and the user DAO.
    The RPC and the DAO take their answers from function-valued constants and keep
    ghost logs of the calls made to them, so that the service's contracts can say
    which calls happened; the lock registry is just the set of held keys. */
module Collaborators {
  import opened Wrappers
  import opened JavaInts
  import opened Errors
  import opened Domain

  /** The distributed lock registry behind RedisLockService.getLock: the keys held
      at this moment by some in-flight holder. */
  class LockRegistry {
    var held: set<string>

    constructor (held: set<string>)
      ensures this.held == held
    {
      this.held := held;
    }

    /** Lock.tryLock(): non-blocking; succeeds exactly when nobody holds the key. */
    method TryLock(key: string) returns (locked: bool)
      modifies this`held
      ensures locked <==> key !in old(held)
      ensures held == old(held) + {key}
    {
      locked := key !in held;
      held := held + {key};
    }

    /** Lock.unlock() by the holder. */
    method Unlock(key: string)
      requires key in held
      modifies this`held
      ensures held == old(held) - {key}
    {
      held := held - {key};
    }
  }

  /** UserAuthRpc.queryAuthName: the name the authorization service reports for a
      login id (possibly null), or the exception the HTTP call threw. */
  class UserAuthRpc {
    const reply: string -> Result<Option<string>, Exception>
    ghost var calls: seq<string>

    constructor (reply: string -> Result<Option<string>, Exception>)
      ensures this.reply == reply && calls == []
    {
      this.reply := reply;
      calls := [];
    }

    method QueryAuthName(loginId: string) returns (r: Result<Option<string>, Exception>)
      modifies this`calls
      ensures r == reply(loginId)
      ensures calls == old(calls) + [loginId]
    {
      r := reply(loginId);
      calls := calls + [loginId];
    }
  }

  /** UserDao: the stored rows and the mapper's behaviour on them, each statement
      given as a function of the current rows and the argument entity. */
  class UserDao {
    var rows: seq<UserRecord>
    /** The exception an insert of the record raises (a duplicate key, say), if any. */
    const saveFault: (seq<UserRecord>, UserRecord) -> Option<Exception>
    const findOneBy: (seq<UserRecord>, UserRecord) -> Option<UserRecord>
    const count: (seq<UserRecord>, UserRecord) -> int64
    const pageOf: (seq<UserRecord>, UserRecord) -> seq<UserRecord>
    ghost var saveCalls: seq<UserRecord>
    ghost var findOneCalls: seq<UserRecord>
    ghost var countCalls: seq<UserRecord>
    ghost var pageCalls: seq<UserRecord>

    constructor (rows: seq<UserRecord>,
                 saveFault: (seq<UserRecord>, UserRecord) -> Option<Exception>,
                 findOneBy: (seq<UserRecord>, UserRecord) -> Option<UserRecord>,
                 count: (seq<UserRecord>, UserRecord) -> int64,
                 pageOf: (seq<UserRecord>, UserRecord) -> seq<UserRecord>)
      ensures this.rows == rows && this.saveFault == saveFault && this.findOneBy == findOneBy
      ensures this.count == count && this.pageOf == pageOf
      ensures saveCalls == [] && findOneCalls == [] && countCalls == [] && pageCalls == []
    {
      this.rows, this.saveFault, this.findOneBy, this.count, this.pageOf :=
        rows, saveFault, findOneBy, count, pageOf;
      saveCalls, findOneCalls, countCalls, pageCalls := [], [], [], [];
    }

    /** save(entity): either the row is inserted, or the insert throws and nothing is
        written. */
    method Save(entity: UserRecord) returns (fault: Option<Exception>)
      modifies this`rows, this`saveCalls
      ensures fault == saveFault(old(rows), entity)
      ensures rows == if fault.None? then old(rows) + [entity] else old(rows)
      ensures saveCalls == old(saveCalls) + [entity]
    {
      fault := saveFault(rows, entity);
      if fault.None? {
        rows := rows + [entity];
      }
      saveCalls := saveCalls + [entity];
    }

    /** findOne(entity): the matching row, or null. */
    method FindOne(entity: UserRecord) returns (r: Option<UserRecord>)
      modifies this`findOneCalls
      ensures r == findOneBy(rows, entity)
      ensures findOneCalls == old(findOneCalls) + [entity]
    {
      r := findOneBy(rows, entity);
      findOneCalls := findOneCalls + [entity];
    }

    /** countBy(entity). */
    method CountBy(entity: UserRecord) returns (n: int64)
      modifies this`countCalls
      ensures n == count(rows, entity)
      ensures countCalls == old(countCalls) + [entity]
    {
      n := count(rows, entity);
      countCalls := countCalls + [entity];
    }

    /** findPageBy(entity): one page of matching rows, as the entity's page/rows select. */
    method FindPageBy(entity: UserRecord) returns (items: seq<UserRecord>)
      modifies this`pageCalls
      ensures items == pageOf(rows, entity)
      ensures pageCalls == old(pageCalls) + [entity]
    {
      items := pageOf(rows, entity);
      pageCalls := pageCalls + [entity];
    }
  }
}
