# spock-example user service, modelled in Dafny

The model covers the user-service layer of spock-example, a Spring application
that registers users and looks them up. Three source files are modelled:

- `UserService` registers a user under a per-user-number lock. It asks an
  authorization service for the user's name, initialises the record and saves it.
  It also answers lookups through a cache keyed by user number, and answers paged
  queries by counting first and then fetching one page.
- `User` is the entity that the service updates in place. It holds the paging
  arithmetic `getOffset`, `fillPaging` and `init`.
- `ExceptionUtils.buildMessage` turns an exception into the text a caller sees.

Files and modules:

- `wrappers.dfy` (`Wrappers`): `Option` stands for a nullable Java reference.
  `Result` stands for a call that returns a value or throws.
- `java_ints.dfy` (`JavaInts`): Java `int` and `long` as ranges of the
  integers, and 32-bit two's-complement wrap-around.
- `errors.dfy` (`Errors`): the exception kinds and `buildMessage`. Also the
  joining of violation messages and its inverse, `Split`, with both round trips proved.
- `domain.dfy` (`Domain`): the `User` class and its value `UserRecord`, plus
  `PageInfo` and the registration request.
- `collaborators.dfy` (`Collaborators`): the lock registry, the authorization
  RPC and the DAO. The authorization RPC and the DAO take their answers from
  function-valued constants and keep ghost call logs, so a contract can say a call
  did or did not happen. The lock registry is just the set of held keys.
- `service.dfy` (`Service`): the `UserService` class. The two-state predicate
  `Registered` spells out the whole effect of one registration. Both
  `registerUser` overloads are proved against it.

The pure parts carry the proofs that need work. These are the join/split round trips,
the separator count, and the congruence of `getOffset` with the exact product.
The service methods state their whole new state in terms of the old state and the
collaborators' behaviour.

## Model

| member | source | states |
|---|---|---|
| `JavaInts.Wrap32` | src/main/java/io/github/howiefh/spock/domain/User.java:67-75 | the Java `int` result of an exact value is congruent to it modulo 2^32 and equal to it when it fits |
| `Domain.OffsetOf` | src/main/java/io/github/howiefh/spock/domain/User.java:73-75 | `(page - 1) * rows` in `int` arithmetic: congruent to the exact product modulo 2^32, and equal to it whenever the product fits in an `int` |
| `Domain.OffsetExamples` | src/main/java/io/github/howiefh/spock/domain/User.java:73-75 | page 1 gives offset 0 for any row count; page 2 with 5 rows gives 5 |
| `Domain.OffsetSign` | src/main/java/io/github/howiefh/spock/domain/User.java:73-75 | when the product fits and rows >= 0, page >= 1 gives a non-negative offset and page <= 0 a non-positive one (no clamping) |
| `Domain.OffsetWraps` | src/main/java/io/github/howiefh/spock/domain/User.java:67-75 | without fitting the sign is lost: page 32769 with 65536 rows gives -2^31 |
| `Domain.Initialized` | src/main/java/io/github/howiefh/spock/domain/User.java:82-85 | the record after init has deleteFlag NORMAL (0, User.java:38) and version 0, and every other field as before |
| `Domain.InitIdempotent` | src/main/java/io/github/howiefh/spock/domain/User.java:82-85 | init applied twice equals init applied once |
| `Domain.FromRequest` | src/main/java/io/github/howiefh/spock/service/UserService.java:64-65 | copying a request onto a new User loses no request field (its same-named fields read back as the request), and the fields the request lacks keep a new User's defaults |
| `Domain.User.constructor` | src/main/java/io/github/howiefh/spock/service/UserService.java:102-103 | `new User()` plus `setUserNo`: only userNo set, other references null, page and rows 0 |
| `Domain.User.GetOffset` | src/main/java/io/github/howiefh/spock/domain/User.java:73-75 | the object's offset is congruent to `(page - 1) * rows` modulo 2^32, and equal to it whenever the product fits in an `int` |
| `Domain.User.FillPaging` | src/main/java/io/github/howiefh/spock/domain/User.java:77-80 | page and rows are taken from the PageInfo, no other field changes, and the offset becomes that of the PageInfo's page and size |
| `Domain.User.Init` | src/main/java/io/github/howiefh/spock/domain/User.java:82-85 | the object's new value is the initialised value of its old one |
| `Domain.PageInfo.constructor` | src/main/java/io/github/howiefh/spock/domain/PageInfo.java:37-49 | a PageInfo holding the requested page number and size, with total 0 and no items |
| `Errors.Messages` | src/main/java/io/github/howiefh/spock/util/ExceptionUtils.java:45 | one message per violation, in order, each that violation's message |
| `Errors.Join` | src/main/java/io/github/howiefh/spock/util/ExceptionUtils.java:45 | `Collectors.joining`: no parts give the empty text; for n parts the text is as long as the parts together plus n - 1 |
| `Errors.JoinEnds` | src/main/java/io/github/howiefh/spock/util/ExceptionUtils.java:45 | the joined text starts with the first part and ends with the last |
| `Errors.Split` | src/main/java/io/github/howiefh/spock/util/ExceptionUtils.java:45 | reference inverse of the join: separator-free pieces, one more than the separators in the text |
| `Errors.SplitJoin` | src/main/java/io/github/howiefh/spock/util/ExceptionUtils.java:45 | splitting the joined text gives back a non-empty list of separator-free parts |
| `Errors.JoinSplit` | src/main/java/io/github/howiefh/spock/util/ExceptionUtils.java:45 | joining the pieces of any text gives back that text |
| `Errors.SeparatorCount` | src/main/java/io/github/howiefh/spock/util/ExceptionUtils.java:45 | n separator-free parts joined hold exactly n - 1 separators |
| `Errors.BuildMessage` | src/main/java/io/github/howiefh/spock/util/ExceptionUtils.java:43-49 | a null exception gives the fixed fallback text; a non-validation exception gives its own message, which may be null; a constraint-violation exception always gives a text |
| `Errors.BuildMessageNoViolations` | src/main/java/io/github/howiefh/spock/util/ExceptionUtils.java:45 | a constraint-violation exception without violations gives the empty text |
| `Errors.BuildMessageSingleViolation` | src/main/java/io/github/howiefh/spock/util/ExceptionUtils.java:45 | a single violation gives exactly its message |
| `Errors.BuildMessageViolations` | src/main/java/io/github/howiefh/spock/util/ExceptionUtils.java:45 | for separator-free messages, the text splits back into the messages in order and holds n - 1 separators |
| `Collaborators.LockRegistry.TryLock` | src/main/java/io/github/howiefh/spock/service/UserService.java:75-76 | succeeds exactly when the key was not held, and the key is held afterwards |
| `Collaborators.LockRegistry.Unlock` | src/main/java/io/github/howiefh/spock/service/UserService.java:90 | the held key is released and nothing else changes |
| `Collaborators.UserAuthRpc.QueryAuthName` | src/main/java/io/github/howiefh/spock/rpc/UserAuthRpc.java:48-56 | returns the authorization service's answer (a possibly null name, or the exception thrown) and logs the call |
| `Collaborators.UserDao.Save` | src/main/java/io/github/howiefh/spock/dao/UserDao.java:43 | either the row is inserted or the save's exception is returned and nothing is written; the call is logged |
| `Collaborators.UserDao.FindOne` | src/main/java/io/github/howiefh/spock/dao/UserDao.java:61 | the store's answer for the condition, with the call logged |
| `Collaborators.UserDao.CountBy` | src/main/java/io/github/howiefh/spock/dao/UserDao.java:79 | the store's count for the condition, with the call logged |
| `Collaborators.UserDao.FindPageBy` | src/main/java/io/github/howiefh/spock/dao/UserDao.java:88 | the store's page for the condition, with the call logged |
| `Service.ContainsText` | src/main/java/io/github/howiefh/spock/service/UserService.java:82 | true exactly when some character is not whitespace |
| `Service.HasText` | src/main/java/io/github/howiefh/spock/service/UserService.java:82 | true exactly when the name is non-null and has a non-whitespace character, so null, empty and all-blank names are rejected |
| `Service.IsWhitespace` | src/main/java/io/github/howiefh/spock/service/UserService.java:82 | `Character.isWhitespace`, used by `hasText`: space, tab, newline, carriage return and the ideographic space count as whitespace, the no-break spaces do not |
| `Service.Prepared` | src/main/java/io/github/howiefh/spock/service/UserService.java:85-86 | the record to save has deleteFlag 0, version 0 and the authorized name, overwriting any name the caller supplied. It otherwise equals the caller's record, so its userNo is unchanged |
| `Service.UserService.constructor` | src/main/java/io/github/howiefh/spock/service/UserService.java:51-56 | the service is wired to the given collaborators and cache null policy, and starts with an empty cache |
| `Service.UserService.Registered` | src/main/java/io/github/howiefh/spock/service/UserService.java:74-92 | the whole effect of one registration. Derived from it: a success returns the caller's userNo; a key the call locked is free afterwards; save is called only with the lock taken and an authorized name; the store changes only on success, and only by the prepared record |
| `Service.UserService.RegisterUser` | src/main/java/io/github/howiefh/spock/service/UserService.java:74-92 | busy lock: returns the userNo and calls neither auth nor save. Auth exception or a name without text: fails with that exception or IllegalStateException("用户未认证"), and save is not called. Otherwise the prepared record is saved once, and the result is its userNo or the save's exception unchanged. The lock is released on every path that took it, and the user object changes only on the authorized path |
| `Service.UserService.RegisterRequest` | src/main/java/io/github/howiefh/spock/service/UserService.java:63-67 | registers the User built by copying the request's same-named fields, with the same effect as RegisterUser |
| `Service.UserService.QueryUser` | src/main/java/io/github/howiefh/spock/service/UserService.java:100-105 | a cached userNo returns the cached value without calling findOne. Otherwise findOne is called once, with a condition holding only that userNo. Its answer is cached and returned, except that a null answer the cache refuses makes the call fail with the cache's exception, leaving the cache unchanged |
| `Service.UserService.QueryUserTwice` | src/main/java/io/github/howiefh/spock/service/UserService.java:100-105 | the first lookup is answered as by `QueryUser` and the cache keeps what it put there; a second lookup of the same userNo has the same outcome as the first. findOne is called again only when the first answer could not be cached |
| `Service.UserService.QueryUserByPage` | src/main/java/io/github/howiefh/spock/service/UserService.java:115-127 | counts first. A zero count sets items to an empty list and total to 0 without fetching a page or touching the condition. Otherwise the condition takes the PageInfo's page and size before the single page fetch, then total is the count and items is that page. The same PageInfo is returned |

## Left out

- Lock leases, cross-process exclusion and the Redis lock registry's internals are library behaviour. The registry is a set of held keys. Reentrant acquisition by the same thread, and `unlock` after a lease expired, are not modelled. `SIXTY_EXPIRE_SECONDS` (src/main/java/io/github/howiefh/spock/cache/RedisLockService.java:34) is unused. The registry takes the library's default 60-second expiry (src/main/java/io/github/howiefh/spock/config/RedisConfiguration.java:38).
- A null `userNo` is not modelled: user numbers are strings. What the lock registry does with a null key is library behaviour.
- The authorization RPC is an HTTP call, so it is a supplied function from login id to answer. A missing `data` field there gives the text "null", which has text and passes the check. The model does not treat it as blank.
- The DAO's SQL and schema are not shown. The save fault, the found row, the count and the page are supplied functions of the stored rows and the condition. Exceptions from `findOne`, `countBy` and `findPageBy` are not modelled. Ids, dates and version increments assigned by the store are not modelled.
- `createdDate` and `modifiedDate` are never read or written by the core, so they are absent from `UserRecord`.
- Spring's `@Cacheable` proxy is reduced to a map from userNo to answer. The cache's configuration is not shown, so whether it stores a null answer or refuses it with an exception is the constant `nullPolicy`. Exceptions from the cache's other operations are not modelled. The cache returns values, not shared objects. No eviction exists in the code, so none is modelled.
- An exception thrown by `unlock` itself, which would mask the workflow's outcome, is library behaviour and not modelled.
- `getConstraintViolations()` returns a set whose iteration order is unspecified. The model takes the violations as a sequence in iteration order.
- Violation sets and violation messages are never null in the model. In Java a null set makes `.stream()` throw a NullPointerException, and a null message is joined as the text "null".
- Bean-validation annotations (`@Valid`, `@NotNull`, `@NotBlank`) are enforced by the framework, not by this code.
- `PageInfo`'s type parameter is fixed to user records.
- The HTTP controller, response shaping, logging, request attributes and configuration wiring are outside the core.

## Behaviour worth noting

- Locks carry the lock library's default lease. Nothing in the code sets one.
- A duplicate key reaches the caller as the store's own exception. It is not translated into a separate error.
- Whether a missing user is cached, refused, or turned into an exception depends on the cache manager's configuration, not on this code.
- `UserService` never sets `createdBy` or `modifiedBy`. `registerUser(UserRegisterRequest)` copies them from the request, and `registerUser(User)` saves whatever the caller set. The HTTP controller sets them, and `userNo`, to the login id (src/main/java/io/github/howiefh/spock/controller/UserController.java:54-56). The controller is outside the core.
- A busy lock makes registration return the userNo as if it had succeeded, without saving anything.
