/** The user entity (User.java), the paging holder it reads (PageInfo.java) and the
    registration request copied onto it (UserRegisterRequest.java). */
module Domain {
  import opened Wrappers
  import opened JavaInts

  /** User.NORMAL: the deleteFlag of a record that is not deleted. */
  const NORMAL: int32 := 0

  /** The value of a User object: its fields at one moment. Boxed Java fields
      (`Long`, `Integer`, `String`) may be null and are options; `page` and `rows`
      are primitive `int`s. */
  datatype UserRecord = UserRecord(
    id: Option<int64>,
    userNo: string,
    userName: Option<string>,
    version: Option<int32>,
    deleteFlag: Option<int32>,
    createdBy: Option<string>,
    modifiedBy: Option<string>,
    invitorNo: Option<string>,
    page: int32,
    rows: int32)

  /** A freshly constructed User whose userNo has been set: every other reference
      field null, the `int` fields zero. */
  function Blank(userNo: string): UserRecord {
    UserRecord(None, userNo, None, None, None, None, None, None, 0, 0)
  }

  /** `(page - 1) * rows` evaluated in Java `int` arithmetic: congruent to the exact
      product modulo 2^32, and equal to it whenever the product fits in an `int`. */
  function OffsetOf(page: int32, rows: int32): (r: int32)
    ensures (r as int - (page as int - 1) * rows as int) % TWO_32 == 0
    ensures InInt32((page as int - 1) * rows as int) ==> r as int == (page as int - 1) * rows as int
  {
    var product := (page as int - 1) * rows as int;
    var r := Wrap32(Wrap32(page as int - 1) as int * rows as int);
    WrapProduct(page as int - 1, rows as int);
    CongruentInRange(r as int, product);
    r
  }

  /** The first page starts at offset 0; page 2 of five rows starts at offset 5. */
  lemma OffsetExamples(rows: int32)
    ensures OffsetOf(1, rows) == 0
    ensures OffsetOf(2, 5) == 5
  {
  }

  /** For page >= 1 and rows >= 0 the offset is non-negative, and for page <= 0 it is
      not clamped but non-positive, as long as the product fits in an `int`. */
  lemma OffsetSign(page: int32, rows: int32)
    requires rows >= 0
    requires InInt32((page as int - 1) * rows as int)
    ensures page >= 1 ==> OffsetOf(page, rows) >= 0
    ensures page <= 0 ==> OffsetOf(page, rows) <= 0
  {
    var d := page as int - 1;
    var n := rows as int;
    assert OffsetOf(page, rows) as int == d * n;
    ProductSign(d, n);
  }

  /** The sign of a product with a non-negative factor follows the other factor. */
  lemma ProductSign(d: int, n: int)
    requires n >= 0
    ensures d >= 0 ==> d * n >= 0
    ensures d <= 0 ==> d * n <= 0
  {
  }

  /** Without the fitting condition the sign is lost: page 32769 of 65536 rows wraps
      to the most negative `int`. */
  lemma OffsetWraps()
    ensures OffsetOf(32769, 65536) == -0x8000_0000
  {
  }

  /** The record after User.init(): deleteFlag is NORMAL and version is 0, and every
      other field is kept. */
  function Initialized(u: UserRecord): (v: UserRecord)
    ensures v.deleteFlag == Some(NORMAL) && v.version == Some(0)
    ensures v.(deleteFlag := u.deleteFlag, version := u.version) == u
  {
    u.(deleteFlag := Some(NORMAL), version := Some(0))
  }

  /** init() is idempotent. */
  lemma InitIdempotent(u: UserRecord)
    ensures Initialized(Initialized(u)) == Initialized(u)
  {
  }

  /** The record after fillPaging from a PageInfo holding `pageNum` and `pageSize`. */
  function WithPaging(u: UserRecord, pageNum: int32, pageSize: int32): UserRecord {
    u.(page := pageNum, rows := pageSize)
  }

  /** PageInfo: the requested page, and the total and items a query fills in. */
  class PageInfo {
    var pageNum: int32
    var pageSize: int32
    var total: int64
    var items: Option<seq<UserRecord>>

    constructor (pageNum: int32, pageSize: int32)
      ensures this.pageNum == pageNum && this.pageSize == pageSize
      ensures total == 0 && items == None
    {
      this.pageNum, this.pageSize := pageNum, pageSize;
      total, items := 0, None;
    }
  }

  /** The fields a registration request carries, copied by name onto a new User. */
  datatype UserRegisterRequest = UserRegisterRequest(
    userNo: string,
    userName: Option<string>,
    createdBy: Option<string>,
    modifiedBy: Option<string>,
    invitorNo: Option<string>)

  /** The request fields a User carries under the same names. */
  function RequestOf(u: UserRecord): UserRegisterRequest {
    UserRegisterRequest(u.userNo, u.userName, u.createdBy, u.modifiedBy, u.invitorNo)
  }

  /** The User that `new User()` followed by BeanUtils.copyProperties(request, user)
      produces: no request field is lost, and every field the request lacks keeps
      the value of a new User. */
  function FromRequest(req: UserRegisterRequest): (u: UserRecord)
    ensures RequestOf(u) == req
    ensures u.(userName := None, createdBy := None, modifiedBy := None, invitorNo := None)
            == Blank(req.userNo)
  {
    Blank(req.userNo).(userName := req.userName, createdBy := req.createdBy,
                       modifiedBy := req.modifiedBy, invitorNo := req.invitorNo)
  }

  /** User: a mutable entity whose setters the service calls in place. */
  class User {
    var id: Option<int64>
    var userNo: string
    var userName: Option<string>
    var version: Option<int32>
    var deleteFlag: Option<int32>
    var createdBy: Option<string>
    var modifiedBy: Option<string>
    var invitorNo: Option<string>
    var page: int32
    var rows: int32

    /** `new User()` followed by setUserNo(userNo). */
    constructor (userNo: string)
      ensures Value() == Blank(userNo)
    {
      id, this.userNo, userName, version, deleteFlag := None, userNo, None, None, None;
      createdBy, modifiedBy, invitorNo, page, rows := None, None, None, 0, 0;
    }

    /** The object's current field values. */
    function Value(): UserRecord
      reads this
    {
      UserRecord(id, userNo, userName, version, deleteFlag, createdBy, modifiedBy,
                 invitorNo, page, rows)
    }

    /** getOffset(): congruent to `(page - 1) * rows` modulo 2^32, and equal to it
        whenever it fits in an `int`. */
    function GetOffset(): (r: int32)
      reads this
      ensures (r as int - (page as int - 1) * rows as int) % TWO_32 == 0
      ensures InInt32((page as int - 1) * rows as int) ==> r as int == (page as int - 1) * rows as int
    {
      OffsetOf(page, rows)
    }

    /** fillPaging(pageInfo): take page and rows from the PageInfo, keep the rest;
        the offset is then that of the PageInfo's page. */
    method FillPaging(pageInfo: PageInfo)
      modifies this
      ensures Value() == WithPaging(old(Value()), pageInfo.pageNum, pageInfo.pageSize)
      ensures GetOffset() == OffsetOf(pageInfo.pageNum, pageInfo.pageSize)
    {
      page := pageInfo.pageNum;
      rows := pageInfo.pageSize;
    }

    /** init(): mark the record not deleted and at version 0. */
    method Init()
      modifies this
      ensures Value() == Initialized(old(Value()))
    {
      deleteFlag := Some(NORMAL);
      version := Some(0);
    }
  }
}
