/**
 * lib/db-utils.ts: translation of ORM errors into HTTP status and message, and
 * page/page-size arithmetic for list queries.
 */
module DbUtils {
  import opened Wrappers

  /** The three kinds of error `handlePrismaError` tells apart by `instanceof`. */
  datatype PrismaError =
    | KnownRequestError(code: string)   // PrismaClientKnownRequestError, with its `code`
    | ValidationError                   // PrismaClientValidationError
    | OtherError                        // anything else that was thrown

  datatype ErrorInfo = ErrorInfo(message: string, status: int)

  const UniqueViolation := "P2002"
  const RecordNotFound := "P2025"
  const ForeignKeyViolation := "P2003"

  const DuplicateMessage := "数据已存在，请勿重复创建"
  const NotFoundMessage := "记录不存在"
  const MissingRelationMessage := "关联数据不存在"
  const DatabaseFailureMessage := "数据库操作失败"
  const ValidationFailureMessage := "数据验证失败"
  const InternalErrorMessage := "服务器内部错误"

  /** The error codes that have a message of their own. */
  predicate IsMappedCode(code: string) {
    code == UniqueViolation || code == RecordNotFound || code == ForeignKeyViolation
  }

  /** Total: every thrown value gets a status and a message. */
  function HandlePrismaError(e: PrismaError): (r: ErrorInfo)
    ensures r.status in {400, 404, 409, 500}
    ensures r.status == 409 <==> e == KnownRequestError(UniqueViolation)
    ensures r.status == 404 <==> e == KnownRequestError(RecordNotFound)
    ensures r.status == 400 <==> e == KnownRequestError(ForeignKeyViolation) || e == ValidationError
    ensures r.status == 500 <==> e == OtherError || (e.KnownRequestError? && !IsMappedCode(e.code))
    ensures e.KnownRequestError? && !IsMappedCode(e.code) ==> r.message == DatabaseFailureMessage
    ensures e == OtherError ==> r.message == InternalErrorMessage
    ensures e == KnownRequestError(UniqueViolation) ==> r == ErrorInfo(DuplicateMessage, 409)
    ensures e == KnownRequestError(RecordNotFound) ==> r == ErrorInfo(NotFoundMessage, 404)
    ensures e == KnownRequestError(ForeignKeyViolation) ==> r == ErrorInfo(MissingRelationMessage, 400)
    ensures e == ValidationError ==> r == ErrorInfo(ValidationFailureMessage, 400)
  {
    match e
    case KnownRequestError(code) =>
      if code == UniqueViolation then ErrorInfo(DuplicateMessage, 409)
      else if code == RecordNotFound then ErrorInfo(NotFoundMessage, 404)
      else if code == ForeignKeyViolation then ErrorInfo(MissingRelationMessage, 400)
      else ErrorInfo(DatabaseFailureMessage, 500)
    case ValidationError => ErrorInfo(ValidationFailureMessage, 400)
    case OtherError => ErrorInfo(InternalErrorMessage, 500)
  }

  /** Each branch has its own message, so a client can tell the six outcomes apart by message alone. */
  lemma MessageIdentifiesOutcome(e1: PrismaError, e2: PrismaError)
    requires HandlePrismaError(e1).message == HandlePrismaError(e2).message
    ensures HandlePrismaError(e1) == HandlePrismaError(e2)
  {
    assert |DuplicateMessage| == 12 && |NotFoundMessage| == 5 && |MissingRelationMessage| == 7;
    assert |DatabaseFailureMessage| == 7 && |ValidationFailureMessage| == 6 && |InternalErrorMessage| == 7;
    assert MissingRelationMessage[0] != DatabaseFailureMessage[0] && MissingRelationMessage[0] != InternalErrorMessage[0];
    assert DatabaseFailureMessage[0] != InternalErrorMessage[0];
  }

  // ---------------------------------------------------------------------------
  // Pagination

  const DefaultPage := 1
  const DefaultPageSize := 10

  /** The ORM's `{ skip, take }`. */
  datatype Window = Window(skip: int, take: int)

  /** The rows a window selects: indices skip .. skip + take - 1 of the full ordered result. */
  predicate InWindow(w: Window, i: int) {
    w.skip <= i < w.skip + w.take
  }

  /**
   * `calculatePagination(page = 1, pageSize = 10)`; `None` is an `undefined` argument.
   * No clamping: a page below 1 gives a negative skip.
   */
  function CalculatePagination(page: Option<int>, pageSize: Option<int>): (w: Window)
    ensures w.take == pageSize.GetOr(DefaultPageSize)
    ensures w.skip == (page.GetOr(DefaultPage) - 1) * w.take
  {
    var p, size := page.GetOr(DefaultPage), pageSize.GetOr(DefaultPageSize);
    Window((p - 1) * size, size)
  }

  lemma DefaultWindow()
    ensures CalculatePagination(None, None) == Window(0, 10)
  {
  }

  /** Page 1 starts at row 0; each following page starts right where the previous one ends. */
  lemma {:induction false} PagesTile(page: int, size: int)
    ensures CalculatePagination(Some(1), Some(size)).skip == 0
    ensures CalculatePagination(Some(page + 1), Some(size)).skip
         == CalculatePagination(Some(page), Some(size)).skip + size
  {
    calc {
      CalculatePagination(Some(page + 1), Some(size)).skip;
      page * size;
      { assert page * size == (page - 1) * size + size; }
      (page - 1) * size + size;
    }
  }

  /** Below page 1 the skip goes negative: the function does not clamp. */
  lemma {:induction false} PageBelowOneSkipsNegative(page: int, size: int)
    requires page < 1 && size > 0
    ensures CalculatePagination(Some(page), Some(size)).skip < 0
  {
    assert (page - 1) * size <= -1 * size by {
      assert page - 1 <= -1;
      assert (page - 1) * size == -1 * size + (page - 1 + 1) * size;
      assert (page - 1 + 1) * size <= 0;
    }
  }

  lemma MulMonotone(a: int, b: int, c: int)
    requires a <= b && c >= 0
    ensures a * c <= b * c
  {
    assert b * c - a * c == (b - a) * c;
  }

  /**
   * With a positive page size, every row index is on exactly one page, namely index / size + 1;
   * no other page, including the unclamped pages below 1, selects it.
   */
  lemma {:induction false} EveryRowOnExactlyOnePage(i: nat, size: int, page: int)
    requires size > 0
    ensures InWindow(CalculatePagination(Some(page), Some(size)), i) <==> page == i / size + 1
  {
    var q := i / size;
    var w := CalculatePagination(Some(page), Some(size));
    assert w.skip == (page - 1) * size;
    assert w.skip + w.take == page * size;
    assert q * size <= i < q * size + size;
    assert (q + 1) * size == q * size + size;
    if page <= q {
      MulMonotone(page, q, size);
    } else if page >= q + 2 {
      MulMonotone(q + 1, page - 1, size);
    }
  }

  /** `Math.ceil(total / pageSize)` as each list route reports it, for a positive page size. */
  function TotalPages(total: nat, pageSize: int): (pages: nat)
    requires pageSize > 0
    ensures pages * pageSize >= total
    ensures pages == 0 || (pages - 1) * pageSize < total
  {
    var q := (total + pageSize - 1) / pageSize;
    assert (total + pageSize - 1) == q * pageSize + (total + pageSize - 1) % pageSize;
    assert q * pageSize + pageSize - 1 >= total;
    assert q * pageSize == (q - 1) * pageSize + pageSize;
    q
  }

  /** The last page holds the last row, and the page after it starts past the end. */
  lemma {:induction false} LastPageHoldsLastRow(total: nat, size: int)
    requires size > 0 && total > 0
    ensures TotalPages(total, size) >= 1
    ensures InWindow(CalculatePagination(Some(TotalPages(total, size)), Some(size)), total - 1)
    ensures CalculatePagination(Some(TotalPages(total, size) + 1), Some(size)).skip >= total
  {
    var n := TotalPages(total, size);
    PagesTile(n, size);
  }

  // ---------------------------------------------------------------------------
  // createPaginationParams

  datatype SortOrder = Asc | Desc

  datatype OrderBy = OrderBy(field: string, direction: SortOrder)

  /** The `FindManyArgs` fragment `createPaginationParams` builds. */
  datatype FindManyArgs = FindManyArgs(skip: int, take: int, orderBy: Option<OrderBy>)

  /**
   * `createPaginationParams(page = 1, pageSize = 10, sortBy?, sortOrder = 'desc')`.
   * `if (sortBy)` is a truthiness test, so the empty string sets no ordering.
   */
  function CreatePaginationParams(page: Option<int>, pageSize: Option<int>, sortBy: Option<string>, sortOrder: Option<SortOrder>): (args: FindManyArgs)
    ensures Window(args.skip, args.take) == CalculatePagination(page, pageSize)
    ensures args.orderBy.Some? <==> sortBy.Some? && sortBy.value != ""
    ensures args.orderBy.Some? ==> args.orderBy.value == OrderBy(sortBy.value, sortOrder.GetOr(Desc))
  {
    var w := CalculatePagination(page, pageSize);
    var orderBy := if sortBy.Some? && sortBy.value != "" then Some(OrderBy(sortBy.value, sortOrder.GetOr(Desc))) else None;
    FindManyArgs(w.skip, w.take, orderBy)
  }
}
