/**
 The pagination request record for listing posts: two optional id bounds, a
 sort direction on the creation time, and a page size.

 A raw request gives each parameter as an optional JavaScript value. Each
 parameter has one declared check, skipped when the parameter is absent:
 - the two id bounds and the page size, when present, must be numbers
   (finite: NaN and the infinities are refused);
 - the sort direction, when present, must be the string ASC or DESC;
 - an absent sort direction is ASC and an absent page size is 20.
 Nothing else is checked: the page size may be zero or negative, and both
 bounds may be supplied together.
 */
module PaginatePostDto {
  import opened Wrappers

  /** A value as the validator receives it. Numbers are modelled as integers. */
  datatype JsValue =
    | Num(n: int)
    | NaN
    | Infinity(positive: bool)
    | Str(s: string)
    | Bool(b: bool)

  datatype Order = ASC | DESC

  /** The request parameters as supplied; `None` means the parameter was omitted. */
  datatype RawQuery = RawQuery(
    whereIdLessThan: Option<JsValue>,
    whereIdMoreThan: Option<JsValue>,
    orderCreatedAt: Option<JsValue>,
    take: Option<JsValue>
  )

  /** The validated parameters, with defaults filled in. */
  datatype PaginateParams = PaginateParams(
    whereIdLessThan: Option<int>,
    whereIdMoreThan: Option<int>,
    orderCreatedAt: Order,
    take: int
  )

  /** The parameter a validation failure is reported against. */
  datatype Field = WhereIdLessThan | WhereIdMoreThan | OrderCreatedAt | Take

  const DefaultOrder: Order := ASC
  const DefaultTake: int := 20

  /** The number check: a finite number, of number type. */
  predicate IsNumber(v: JsValue)
  {
    v.Num?
  }

  /** The membership check for the sort direction: one of the two allowed strings. */
  predicate IsOrder(v: JsValue)
  {
    v == Str("ASC") || v == Str("DESC")
  }

  /** An optional parameter passes when it is omitted or its value passes the check. */
  predicate OptionalNumberOk(o: Option<JsValue>)
  {
    o.None? || IsNumber(o.value)
  }

  predicate OptionalOrderOk(o: Option<JsValue>)
  {
    o.None? || IsOrder(o.value)
  }

  /** The set of parameters whose checks fail. */
  function Failures(q: RawQuery): (r: set<Field>)
    ensures WhereIdLessThan in r <==> q.whereIdLessThan.Some? && !IsNumber(q.whereIdLessThan.value)
    ensures WhereIdMoreThan in r <==> q.whereIdMoreThan.Some? && !IsNumber(q.whereIdMoreThan.value)
    ensures OrderCreatedAt in r <==> q.orderCreatedAt.Some? && !IsOrder(q.orderCreatedAt.value)
    ensures Take in r <==> q.take.Some? && !IsNumber(q.take.value)
  {
    (if OptionalNumberOk(q.whereIdLessThan) then {} else {WhereIdLessThan})
    + (if OptionalNumberOk(q.whereIdMoreThan) then {} else {WhereIdMoreThan})
    + (if OptionalOrderOk(q.orderCreatedAt) then {} else {OrderCreatedAt})
    + (if OptionalNumberOk(q.take) then {} else {Take})
  }

  function NumberOf(o: Option<JsValue>): Option<int>
    requires OptionalNumberOk(o)
  {
    match o
    case None => None
    case Some(v) => Some(v.n)
  }

  function OrderOf(o: Option<JsValue>): Order
    requires OptionalOrderOk(o)
  {
    match o
    case None => DefaultOrder
    case Some(v) => if v == Str("ASC") then ASC else DESC
  }

  /**
   Validate a raw request: every failing parameter is reported, or, when none
   fails, the typed parameters with the defaults for omitted ones.
   */
  function Validate(q: RawQuery): (r: Result<PaginateParams, set<Field>>)
    ensures r.Ok? <==>
      && OptionalNumberOk(q.whereIdLessThan)
      && OptionalNumberOk(q.whereIdMoreThan)
      && OptionalOrderOk(q.orderCreatedAt)
      && OptionalNumberOk(q.take)
    ensures r.Err? ==> r.error != {} && r.error == Failures(q)
    ensures r.Ok? && q.orderCreatedAt.None? ==> r.value.orderCreatedAt == ASC
    ensures r.Ok? && q.take.None? ==> r.value.take == 20
    ensures r.Ok? && q.orderCreatedAt.Some? ==>
      (r.value.orderCreatedAt == ASC <==> q.orderCreatedAt.value == Str("ASC"))
    ensures r.Ok? && q.take.Some? ==> q.take.value == Num(r.value.take)
    ensures r.Ok? ==>
      && (r.value.whereIdLessThan.Some? <==> q.whereIdLessThan.Some?)
      && (r.value.whereIdLessThan.Some? ==> q.whereIdLessThan.value == Num(r.value.whereIdLessThan.value))
      && (r.value.whereIdMoreThan.Some? <==> q.whereIdMoreThan.Some?)
      && (r.value.whereIdMoreThan.Some? ==> q.whereIdMoreThan.value == Num(r.value.whereIdMoreThan.value))
  {
    var failures := Failures(q);
    if failures != {} then Err(failures)
    else
      Ok(PaginateParams(
        NumberOf(q.whereIdLessThan),
        NumberOf(q.whereIdMoreThan),
        OrderOf(q.orderCreatedAt),
        match q.take case None => DefaultTake case Some(v) => v.n))
  }

  /** The request that supplies every parameter of `p` explicitly. */
  function ToRawQuery(p: PaginateParams): RawQuery
  {
    RawQuery(
      match p.whereIdLessThan case None => None case Some(n) => Some(Num(n)),
      match p.whereIdMoreThan case None => None case Some(n) => Some(Num(n)),
      Some(if p.orderCreatedAt == ASC then Str("ASC") else Str("DESC")),
      Some(Num(p.take)))
  }

  // ---------------------------------------------------------------------------
  // Properties
  // ---------------------------------------------------------------------------

  /** Validating the explicit request for some parameters gives those parameters back. */
  lemma ValidateRoundTrip(p: PaginateParams)
    ensures Validate(ToRawQuery(p)) == Ok(p)
  {
  }

  /** An empty request validates to the defaults: no bounds, ASC, 20. */
  lemma EmptyQueryGivesDefaults()
    ensures Validate(RawQuery(None, None, None, None)) == Ok(PaginateParams(None, None, ASC, 20))
  {
  }

  /** A supplied sort direction is accepted exactly when it is ASC or DESC. */
  lemma OrderAcceptedIffAscOrDesc(v: JsValue)
    ensures Validate(RawQuery(None, None, Some(v), None)).Ok? <==> v == Str("ASC") || v == Str("DESC")
    ensures Validate(RawQuery(None, None, Some(v), None)).Err? ==>
      Validate(RawQuery(None, None, Some(v), None)).error == {OrderCreatedAt}
  {
  }

  /** A supplied id bound is accepted exactly when it is a finite number. */
  lemma BoundsMustBeNumbers(v: JsValue)
    ensures Validate(RawQuery(Some(v), None, None, None)).Ok? <==> v.Num?
    ensures Validate(RawQuery(None, Some(v), None, None)).Ok? <==> v.Num?
  {
  }

  /** Any number is an accepted page size, including zero and negative numbers. */
  lemma TakeHasNoRangeCheck(n: int)
    ensures Validate(RawQuery(None, None, None, Some(Num(n)))) == Ok(PaginateParams(None, None, ASC, n))
  {
  }

  /** Both id bounds may be supplied together; both are kept. */
  lemma BothBoundsAccepted(less: int, more: int)
    ensures Validate(RawQuery(Some(Num(less)), Some(Num(more)), None, None))
      == Ok(PaginateParams(Some(less), Some(more), ASC, 20))
  {
  }
}
