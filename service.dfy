/** UserService: registration under a per-key lock, a read-through cached lookup
    and a paged query, over the collaborators of module Collaborators. */
module Service {
  import opened Wrappers
  import opened Errors
  import opened Domain
  import opened Collaborators

  /** Message of the IllegalStateException raised for a user without an auth name. */
  const UNAUTHENTICATED: string := "用户未认证"

  /** Character.isWhitespace: the Unicode space, line and paragraph separators other
      than the no-break spaces, and the control characters TAB to CR and FS to US. */
  predicate IsWhitespace(c: char)
    ensures c in [' ', '\t', '\n', '\r', '\U{3000}'] ==> IsWhitespace(c)
    ensures c in ['\U{A0}', '\U{2007}', '\U{202F}'] ==> !IsWhitespace(c)
    ensures IsWhitespace(c) ==> c <= '\U{3000}'
  {
    || '\t' <= c <= '\r'
    || '\U{1C}' <= c <= '\U{1F}'
    || c == ' '
    || c == '\U{1680}'
    || '\U{2000}' <= c <= '\U{2006}'
    || '\U{2008}' <= c <= '\U{200A}'
    || c == '\U{2028}' || c == '\U{2029}' || c == '\U{205F}' || c == '\U{3000}'
  }

  /** StringUtils.containsText: some character is not whitespace. */
  predicate ContainsText(s: string)
    ensures ContainsText(s) <==> exists i :: 0 <= i < |s| && !IsWhitespace(s[i])
  {
    if s == [] then false
    else if !IsWhitespace(s[0]) then true
    else
      var t := s[1..];
      assert forall i :: 0 <= i < |t| ==> t[i] == s[i + 1];
      ContainsText(t)
  }

  /** StringUtils.hasText: non-null, non-empty and not all whitespace. */
  predicate HasText(s: Option<string>)
    ensures HasText(s) <==> s.Some? && exists i :: 0 <= i < |s.value| && !IsWhitespace(s.value[i])
  {
    s.Some? && |s.value| > 0 && ContainsText(s.value)
  }

  /** The record registerUser saves, `user.init()` and then `setUserName(name)`: not
      deleted, at version 0, named by the authorization service whatever name the
      caller supplied, and otherwise the caller's record. */
  function Prepared(u: UserRecord, name: string): (v: UserRecord)
    ensures v.deleteFlag == Some(NORMAL) && v.version == Some(0)
    ensures v.userName == Some(name)
    ensures v.(userName := u.userName, deleteFlag := u.deleteFlag, version := u.version) == u
  {
    Initialized(u).(userName := Some(name))
  }

  /** How the cache manager treats a null result: it stores it, or it refuses the
      put with the given exception (an IllegalArgumentException in Spring's caches). */
  datatype NullPolicy = StoresNull | RejectsNull(error: Exception)

  class UserService {
    const locks: LockRegistry
    const auth: UserAuthRpc
    const dao: UserDao
    /** What the cache manager does with a null result (its configuration is not
        part of this model). */
    const nullPolicy: NullPolicy
    /** The "users" cache, keyed by userNo. */
    var cache: map<string, Option<UserRecord>>

    constructor (locks: LockRegistry, auth: UserAuthRpc, dao: UserDao, nullPolicy: NullPolicy)
      ensures this.locks == locks && this.auth == auth && this.dao == dao
      ensures this.nullPolicy == nullPolicy && cache == map[]
    {
      this.locks, this.auth, this.dao, this.nullPolicy := locks, auth, dao, nullPolicy;
      cache := map[];
    }

    /** What registering a user whose fields are `u` does to the collaborators and
        returns. A busy lock returns the userNo and calls nothing. Otherwise the
        authorization service is asked once; a thrown exception or a name without
        text ends the call with an exception and no save; a name with text saves
        the prepared record, and the save's exception, if any, reaches the caller.
        On every path that took the lock, the lock is released. */
    twostate predicate Registered(u: UserRecord, new r: Result<string, Exception>)
      reads locks, auth, dao
      // A success always returns the caller's userNo.
      ensures Registered(u, r) && r.Ok? ==> r.value == u.userNo
      // A key this call locked is free again afterwards.
      ensures Registered(u, r) && u.userNo !in old(locks.held) ==> u.userNo !in locks.held
      // Save is called only with the lock taken and an authorized name.
      ensures Registered(u, r) && dao.saveCalls != old(dao.saveCalls) ==>
        u.userNo !in old(locks.held) && AuthorizedName(u.userNo).Some?
      // The store changes only by the prepared record, and only on success.
      ensures Registered(u, r) && dao.rows != old(dao.rows) ==>
        && r == Ok(u.userNo)
        && AuthorizedName(u.userNo).Some?
        && dao.rows == old(dao.rows) + [Prepared(u, AuthorizedName(u.userNo).value)]
    {
      var no := u.userNo;
      && locks.held == old(locks.held)
      && if no in old(locks.held) then
           && r == Ok(no)
           && auth.calls == old(auth.calls)
           && dao.saveCalls == old(dao.saveCalls) && dao.rows == old(dao.rows)
         else
           && no !in locks.held
           && auth.calls == old(auth.calls) + [no]
           && match auth.reply(no)
              case Err(e) =>
                r == Err(e) && dao.saveCalls == old(dao.saveCalls) && dao.rows == old(dao.rows)
              case Ok(name) =>
                if !HasText(name) then
                  && r == Err(IllegalStateException(Some(UNAUTHENTICATED)))
                  && dao.saveCalls == old(dao.saveCalls) && dao.rows == old(dao.rows)
                else
                  var saved := Prepared(u, name.value);
                  && dao.saveCalls == old(dao.saveCalls) + [saved]
                  && match dao.saveFault(old(dao.rows), saved)
                     case Some(e) => r == Err(e) && dao.rows == old(dao.rows)
                     case None => r == Ok(no) && dao.rows == old(dao.rows) + [saved]
    }

    /** The name registration would take for `userNo`, if authorization succeeds. */
    function AuthorizedName(userNo: string): Option<string> {
      match auth.reply(userNo)
      case Ok(name) => if HasText(name) then name else None
      case Err(_) => None
    }

    /** registerUser(User): the user object itself is initialised and renamed only
        when the lock was free and the authorization service gave a name. */
    method RegisterUser(user: User) returns (r: Result<string, Exception>)
      modifies locks`held, auth`calls, dao`rows, dao`saveCalls, user
      ensures Registered(old(user.Value()), r)
      ensures user.Value() ==
        if old(user.userNo) !in old(locks.held) && AuthorizedName(old(user.userNo)).Some?
        then Prepared(old(user.Value()), AuthorizedName(old(user.userNo)).value)
        else old(user.Value())
    {
      var locked := locks.TryLock(user.userNo);
      if !locked {
        assert locks.held == old(locks.held);
        return Ok(user.userNo);
      }
      var reply := auth.QueryAuthName(user.userNo);
      match reply {
        case Err(e) =>
          r := Err(e);
        case Ok(name) =>
          if !HasText(name) {
            r := Err(IllegalStateException(Some(UNAUTHENTICATED)));
          } else {
            user.Init();
            user.userName := Some(name.value);
            var fault := dao.Save(user.Value());
            r := if fault.Some? then Err(fault.value) else Ok(user.userNo);
          }
      }
      locks.Unlock(user.userNo);
      assert locks.held == old(locks.held);
    }

    /** registerUser(UserRegisterRequest): copy the request onto a new User and
        register that. */
    method RegisterRequest(request: UserRegisterRequest) returns (r: Result<string, Exception>)
      modifies locks`held, auth`calls, dao`rows, dao`saveCalls
      ensures Registered(FromRequest(request), r)
    {
      var user := new User(request.userNo);
      user.userName, user.createdBy := request.userName, request.createdBy;
      user.modifiedBy, user.invitorNo := request.modifiedBy, request.invitorNo;
      r := RegisterUser(user);
    }

    /** queryUser(userNo) behind @Cacheable(key = userNo): a cached entry is returned
        without asking the DAO; otherwise findOne is asked for the user with that
        userNo and its answer is put into the cache; a null answer the cache refuses
        makes the put, and so the call, throw. */
    method QueryUser(userNo: string) returns (r: Result<Option<UserRecord>, Exception>)
      modifies this`cache, dao`findOneCalls
      ensures userNo in old(cache) ==>
        && r == Ok(old(cache)[userNo])
        && cache == old(cache)
        && dao.findOneCalls == old(dao.findOneCalls)
      ensures userNo !in old(cache) ==>
        var found := dao.findOneBy(dao.rows, Blank(userNo));
        && dao.findOneCalls == old(dao.findOneCalls) + [Blank(userNo)]
        && if found.None? && nullPolicy.RejectsNull? then
             r == Err(nullPolicy.error) && cache == old(cache)
           else
             r == Ok(found) && cache == old(cache)[userNo := found]
    {
      if userNo in cache {
        return Ok(cache[userNo]);
      }
      var query := new User(userNo);
      var found := dao.FindOne(query.Value());
      if found.None? && nullPolicy.RejectsNull? {
        r := Err(nullPolicy.error);
      } else {
        cache := cache[userNo := found];
        r := Ok(found);
      }
    }

    /** Two lookups of the same userNo in a row: the first is answered as by
        QueryUser, the second gives the same outcome, and the cache keeps what the
        first put there. findOne is asked again only when the first answer could not
        be cached. */
    method QueryUserTwice(userNo: string)
      returns (first: Result<Option<UserRecord>, Exception>, second: Result<Option<UserRecord>, Exception>)
      modifies this`cache, dao`findOneCalls
      ensures userNo in old(cache) ==> first == Ok(old(cache)[userNo])
      ensures userNo !in old(cache) ==>
        var found := dao.findOneBy(dao.rows, Blank(userNo));
        first == if found.None? && nullPolicy.RejectsNull? then Err(nullPolicy.error) else Ok(found)
      ensures second == first
      ensures cache ==
        if userNo in old(cache) then old(cache)
        else if first.Ok? then old(cache)[userNo := first.value]
        else old(cache)
      ensures dao.findOneCalls == old(dao.findOneCalls) +
        if userNo in old(cache) then []
        else if first.Ok? then [Blank(userNo)]
        else [Blank(userNo), Blank(userNo)]
    {
      first := QueryUser(userNo);
      second := QueryUser(userNo);
    }

    /** queryUserByPage(pageInfo, condition): count first; with no match the items are
        an empty list and no page is fetched; otherwise the condition takes the
        PageInfo's paging and one page is fetched. The PageInfo given is filled in
        place and returned. */
    method QueryUserByPage(pageInfo: PageInfo, condition: User) returns (r: PageInfo)
      modifies pageInfo`total, pageInfo`items, condition, dao`countCalls, dao`pageCalls
      ensures r == pageInfo
      ensures dao.countCalls == old(dao.countCalls) + [old(condition.Value())]
      ensures pageInfo.total == dao.count(dao.rows, old(condition.Value()))
      ensures pageInfo.total == 0 ==>
        && pageInfo.items == Some([])
        && condition.Value() == old(condition.Value())
        && dao.pageCalls == old(dao.pageCalls)
      ensures pageInfo.total != 0 ==>
        && condition.Value() == WithPaging(old(condition.Value()), pageInfo.pageNum, pageInfo.pageSize)
        && condition.GetOffset() == OffsetOf(pageInfo.pageNum, pageInfo.pageSize)
        && dao.pageCalls == old(dao.pageCalls) + [condition.Value()]
        && pageInfo.items == Some(dao.pageOf(dao.rows, condition.Value()))
    {
      var count := dao.CountBy(condition.Value());
      var list: seq<UserRecord>;
      if count != 0 {
        condition.FillPaging(pageInfo);
        list := dao.FindPageBy(condition.Value());
      } else {
        list := [];
      }
      pageInfo.total := count;
      pageInfo.items := Some(list);
      r := pageInfo;
    }
  }
}
