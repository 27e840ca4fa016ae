/** The promo-code routes of routes/promoCode.js over the `promo_codes`
    table, with the column rules of models/PromoCode.js: a unique, non-blank
    code, a non-blank name and a discount between 0 and 100. */
module PromoCodeRoutes {
  import opened Http
  import opened Validation

  const ADD_FAILED := "Failed to add promo code"
  const NOT_FOUND_MESSAGE := "Promo code not found"
  const UPDATE_FAILED := "Failed to update promo code"
  const DELETED := "Promo code deleted successfully"

  /** The column default of `discount`. */
  const DEFAULT_DISCOUNT: real := 10.0

  /** A row of `promo_codes`; `expirationDate` (a point in time) and
      `isActive` are nullable. */
  datatype PromoCode = PromoCode(id: int, code: string, name: string, discount: real,
                                 expirationDate: Option<int>, isActive: Option<bool>)

  /** The body `{ code, name, discount, expirationDate, isActive }`. */
  datatype PromoRequest = PromoRequest(code: Field<string>, name: Field<string>, discount: Field<real>,
                                       expirationDate: Field<int>, isActive: Field<bool>)

  /** The table and the next value of its id sequence. */
  datatype PromoTables = PromoTables(codes: map<int, PromoCode>, nextId: int)

  /** The `notEmpty`, `min` and `max` validators of the model. */
  predicate RowValid(p: PromoCode) {
    !Blank(p.code) && !Blank(p.name) && 0.0 <= p.discount <= 100.0
  }

  /** The unique index on `code`. */
  ghost predicate CodesUnique(codes: map<int, PromoCode>) {
    forall j, k :: j in codes && k in codes && codes[j].code == codes[k].code ==> j == k
  }

  ghost predicate TablesValid(t: PromoTables) {
    && 1 <= t.nextId
    && (forall k :: k in t.codes ==> t.codes[k].id == k && 1 <= k < t.nextId && RowValid(t.codes[k]))
    && CodesUnique(t.codes)
  }

  /** Some row other than `id` already holds `code`. */
  predicate CodeTaken(codes: map<int, PromoCode>, code: string, id: int) {
    exists k :: k in codes && k != id && codes[k].code == code
  }

  /** The value a nullable column takes from a body field: `absent` when the
      field is undefined, null when it is null. */
  function Nullable<T>(f: Field<T>, absent: Option<T>): Option<T> {
    match f
    case Undefined => absent
    case Null => None
    case Given(v) => Some(v)
  }

  /** The row `PromoCode.create` builds under `id`: None when the body fails
      a NOT NULL check; an absent field takes the column default (discount
      10, active, no expiration date). */
  function Created(req: PromoRequest, id: int): (r: Option<PromoCode>)
    ensures r.Some? <==> req.code.Given? && req.name.Given? && !req.discount.Null?
    ensures r.Some? ==> && r.value.id == id && r.value.code == req.code.value && r.value.name == req.name.value
                        && r.value.discount == (if req.discount.Given? then req.discount.value else DEFAULT_DISCOUNT)
                        && r.value.expirationDate == Nullable(req.expirationDate, None)
                        && r.value.isActive == Nullable(req.isActive, Some(true))
  {
    if req.code.Given? && req.name.Given? && !req.discount.Null? then
      var discount := if req.discount.Given? then req.discount.value else DEFAULT_DISCOUNT;
      Some(PromoCode(id, req.code.value, req.name.value, discount,
                     Nullable(req.expirationDate, None), Nullable(req.isActive, Some(true))))
    else None
  }

  /** POST /api/promo-codes. The validators run before the INSERT, so a
      rejected body draws no id; a duplicate code fails at the INSERT, after
      the sequence has handed out its value. */
  function CreatePromoCode(t: PromoTables, req: PromoRequest): (r: Handled<PromoCode, PromoTables>)
    requires TablesValid(t)
    ensures TablesValid(r.state)
    ensures r.response.status in {CREATED, SERVER_ERROR}
    ensures var row := Created(req, t.nextId);
            r.response.status == CREATED <==>
              row.Some? && RowValid(row.value) && !CodeTaken(t.codes, row.value.code, t.nextId)
    ensures r.response.status == SERVER_ERROR ==>
              && r.response == Failure(SERVER_ERROR, ADD_FAILED)
              && r.state.codes == t.codes
              && (r.state.nextId == t.nextId + 1 <==>
                    Created(req, t.nextId).Some? && RowValid(Created(req, t.nextId).value))
              && (r.state.nextId != t.nextId + 1 ==> r.state == t)
    ensures r.response.status == CREATED ==>
              && r.response == Success(CREATED, Created(req, t.nextId).value)
              && t.nextId !in t.codes
              && r.state == PromoTables(t.codes[t.nextId := r.response.body], t.nextId + 1)
  {
    match Created(req, t.nextId)
    case None => Handled(Failure(SERVER_ERROR, ADD_FAILED), t)
    case Some(row) =>
      if !RowValid(row) then Handled(Failure(SERVER_ERROR, ADD_FAILED), t)
      else if CodeTaken(t.codes, row.code, t.nextId) then
        Handled(Failure(SERVER_ERROR, ADD_FAILED), t.(nextId := t.nextId + 1))
      else Handled(Success(CREATED, row), PromoTables(t.codes[t.nextId := row], t.nextId + 1))
  }

  /** GET /api/promo-codes/:id. */
  function GetPromoCode(t: PromoTables, id: int): (r: Response<PromoCode>)
    requires TablesValid(t)
    ensures r.status in {OK, NOT_FOUND}
    ensures r.status == NOT_FOUND <==> id !in t.codes
    ensures r.status == NOT_FOUND ==> r == Failure(NOT_FOUND, NOT_FOUND_MESSAGE)
    ensures r.Success? ==> r.body.id == id && r.body == t.codes[id]
  {
    if id in t.codes then Success(OK, t.codes[id]) else Failure(NOT_FOUND, NOT_FOUND_MESSAGE)
  }

  /** GET /api/promo-codes: every stored code (in no particular order). */
  function ListPromoCodes(t: PromoTables): (r: Response<set<PromoCode>>)
    requires TablesValid(t)
    ensures r.Success? && r.status == OK
    ensures forall p :: p in r.body <==> GetPromoCode(t, p.id) == Success(OK, p)
  {
    Success(OK, set k | k in t.codes :: t.codes[k])
  }

  /** The row after `promoCode.update(body)`: keys whose value is undefined
      are dropped, the others are assigned; None when `code`, `name` or
      `discount` would become null. */
  function Updated(p: PromoCode, req: PromoRequest): (r: Option<PromoCode>)
    ensures r.Some? <==> !req.code.Null? && !req.name.Null? && !req.discount.Null?
    ensures r.Some? ==> && r.value.id == p.id
                        && r.value.code == (if req.code.Given? then req.code.value else p.code)
                        && r.value.name == (if req.name.Given? then req.name.value else p.name)
                        && r.value.discount == (if req.discount.Given? then req.discount.value else p.discount)
                        && r.value.expirationDate == Nullable(req.expirationDate, p.expirationDate)
                        && r.value.isActive == Nullable(req.isActive, p.isActive)
  {
    if req.code.Null? || req.name.Null? || req.discount.Null? then None
    else
      var row := p;
      var row := if req.code.Given? then row.(code := req.code.value) else row;
      var row := if req.name.Given? then row.(name := req.name.value) else row;
      var row := if req.discount.Given? then row.(discount := req.discount.value) else row;
      var row := if req.expirationDate.Undefined? then row else row.(expirationDate := Nullable(req.expirationDate, None));
      var row := if req.isActive.Undefined? then row else row.(isActive := Nullable(req.isActive, None));
      Some(row)
  }

  /** PUT /api/promo-codes/:id. */
  function UpdatePromoCode(t: PromoTables, id: int, req: PromoRequest): (r: Handled<PromoCode, PromoTables>)
    requires TablesValid(t)
    ensures TablesValid(r.state)
    ensures r.response.status in {OK, NOT_FOUND, SERVER_ERROR}
    ensures r.response.status == NOT_FOUND <==> id !in t.codes
    ensures r.response.status != OK ==> r.state == t
    ensures r.response.status == NOT_FOUND ==> r.response == Failure(NOT_FOUND, NOT_FOUND_MESSAGE)
    ensures r.response.status == SERVER_ERROR ==> r.response == Failure(SERVER_ERROR, UPDATE_FAILED)
    ensures r.response.status == OK <==>
              && id in t.codes
              && var row := Updated(t.codes[id], req);
                 row.Some? && RowValid(row.value) && !CodeTaken(t.codes, row.value.code, id)
    ensures r.response.status == OK ==>
              && r.response == Success(OK, Updated(t.codes[id], req).value)
              && r.state == t.(codes := t.codes[id := r.response.body])
  {
    if id !in t.codes then Handled(Failure(NOT_FOUND, NOT_FOUND_MESSAGE), t)
    else
      match Updated(t.codes[id], req)
      case None => Handled(Failure(SERVER_ERROR, UPDATE_FAILED), t)
      case Some(row) =>
        if !RowValid(row) || CodeTaken(t.codes, row.code, id) then Handled(Failure(SERVER_ERROR, UPDATE_FAILED), t)
        else Handled(Success(OK, row), t.(codes := t.codes[id := row]))
  }

  /** DELETE /api/promo-codes/:id. */
  function RemovePromoCode(t: PromoTables, id: int): (r: Handled<string, PromoTables>)
    requires TablesValid(t)
    ensures TablesValid(r.state)
    ensures r.response.status in {OK, NOT_FOUND}
    ensures r.response.status == NOT_FOUND <==> id !in t.codes
    ensures r.response.status == NOT_FOUND ==> r == Handled(Failure(NOT_FOUND, NOT_FOUND_MESSAGE), t)
    ensures r.response.status == OK ==>
              r.response == Success(OK, DELETED) && r.state == t.(codes := t.codes - {id})
  {
    if id in t.codes then Handled(Success(OK, DELETED), t.(codes := t.codes - {id}))
    else Handled(Failure(NOT_FOUND, NOT_FOUND_MESSAGE), t)
  }

  // ------------------------------------------------ the routes against each other

  /** A created code is found under its id and listed next to the earlier ones. */
  lemma CreateThenGet(t: PromoTables, req: PromoRequest)
    requires TablesValid(t)
    requires CreatePromoCode(t, req).response.status == CREATED
    ensures var r := CreatePromoCode(t, req);
            && GetPromoCode(r.state, r.response.body.id) == Success(OK, r.response.body)
            && ListPromoCodes(r.state).body == ListPromoCodes(t).body + {r.response.body}
  {
    var r := CreatePromoCode(t, req);
    var before, after := ListPromoCodes(t).body, ListPromoCodes(r.state).body;
    forall p ensures p in after <==> p in before + {r.response.body} {
      if p in after && p != r.response.body {
        assert GetPromoCode(r.state, p.id) == Success(OK, p);
        assert p.id != t.nextId;
        assert GetPromoCode(t, p.id) == Success(OK, p);
      }
    }
  }

  /** Posting the same body twice: the second attempt hits the unique code,
      fails, and leaves a gap in the id sequence. */
  lemma CreateTwiceFails(t: PromoTables, req: PromoRequest)
    requires TablesValid(t)
    requires CreatePromoCode(t, req).response.status == CREATED
    ensures var t1 := CreatePromoCode(t, req).state;
            var r := CreatePromoCode(t1, req);
            r.response == Failure(SERVER_ERROR, ADD_FAILED) && r.state == t1.(nextId := t1.nextId + 1)
  {
    var t1 := CreatePromoCode(t, req).state;
    assert t1.codes[t.nextId].code == req.code.value;
    assert Created(req, t1.nextId).value.code == req.code.value;
  }

  /** The model's validators: a code or a name made only of white space, or
      a discount outside [0, 100], is refused on create and on update with a
      500, before anything is written or an id is drawn; a row that passes
      them and holds a free code is stored. */
  lemma ValidatorsDecide(t: PromoTables, req: PromoRequest, id: int)
    requires TablesValid(t)
    ensures var row := Created(req, t.nextId);
            row.Some? && (Blank(row.value.code) || Blank(row.value.name) || !(0.0 <= row.value.discount <= 100.0)) ==>
              CreatePromoCode(t, req) == Handled(Failure(SERVER_ERROR, ADD_FAILED), t)
    ensures var row := Created(req, t.nextId);
            row.Some? && !Blank(row.value.code) && !Blank(row.value.name) && 0.0 <= row.value.discount <= 100.0 &&
            !CodeTaken(t.codes, row.value.code, t.nextId) ==>
              CreatePromoCode(t, req).response == Success(CREATED, row.value)
    ensures id in t.codes && Updated(t.codes[id], req).Some? ==>
              var row := Updated(t.codes[id], req).value;
              Blank(row.code) || Blank(row.name) || !(0.0 <= row.discount <= 100.0) ==>
                UpdatePromoCode(t, id, req) == Handled(Failure(SERVER_ERROR, UPDATE_FAILED), t)
  {
  }

  /** A PUT with an empty body changes nothing and answers with the stored row. */
  lemma EmptyUpdateKeepsRow(t: PromoTables, id: int)
    requires TablesValid(t) && id in t.codes
    ensures UpdatePromoCode(t, id, PromoRequest(Undefined, Undefined, Undefined, Undefined, Undefined))
            == Handled(Success(OK, t.codes[id]), t)
  {
    var req := PromoRequest(Undefined, Undefined, Undefined, Undefined, Undefined);
    assert Updated(t.codes[id], req) == Some(t.codes[id]);
    assert t.codes[id := t.codes[id]] == t.codes;
  }

  /** Re-sending a row's own code is not a conflict with itself. */
  lemma UpdateKeepingCode(t: PromoTables, id: int, req: PromoRequest)
    requires TablesValid(t) && id in t.codes
    requires req.code == Given(t.codes[id].code) && req.name.Undefined? && req.discount.Undefined?
    ensures UpdatePromoCode(t, id, req).response.status == OK
  {
  }

  /** A successful update is what a later GET returns; other codes are untouched. */
  lemma UpdateThenGet(t: PromoTables, id: int, req: PromoRequest, other: int)
    requires TablesValid(t)
    requires UpdatePromoCode(t, id, req).response.status == OK
    ensures var r := UpdatePromoCode(t, id, req);
            && GetPromoCode(r.state, id) == Success(OK, r.response.body)
            && (other != id ==> GetPromoCode(r.state, other) == GetPromoCode(t, other))
  {
  }

  /** After a DELETE the id is gone for GET, PUT and a second DELETE. */
  lemma DeleteThenGet(t: PromoTables, id: int, req: PromoRequest)
    requires TablesValid(t)
    ensures var t' := RemovePromoCode(t, id).state;
            && GetPromoCode(t', id) == Failure(NOT_FOUND, NOT_FOUND_MESSAGE)
            && UpdatePromoCode(t', id, req).response.status == NOT_FOUND
            && RemovePromoCode(t', id).response.status == NOT_FOUND
  {
  }

  // ----------------------------------------------------------- the connection

  /** The database connection's view of `promo_codes`. */
  class PromoCodeDb {
    var codes: map<int, PromoCode>
    var nextId: int

    function Tables(): PromoTables
      reads this
    {
      PromoTables(codes, nextId)
    }

    ghost predicate Valid()
      reads this
    {
      TablesValid(Tables())
    }

    constructor ()
      ensures Valid() && Tables() == PromoTables(map[], 1)
    {
      codes, nextId := map[], 1;
    }

    /** POST /api/promo-codes: validate, draw an id, then insert. */
    method PostPromoCode(req: PromoRequest) returns (response: Response<PromoCode>)
      requires Valid()
      modifies this
      ensures Valid()
      ensures Handled(response, Tables()) == CreatePromoCode(old(Tables()), req)
    {
      var row := Created(req, nextId);
      if row.None? || !RowValid(row.value) {
        return Failure(SERVER_ERROR, ADD_FAILED);
      }
      var id := nextId;
      nextId := nextId + 1;
      if CodeTaken(codes, row.value.code, id) {
        return Failure(SERVER_ERROR, ADD_FAILED);
      }
      codes := codes[id := row.value];
      response := Success(CREATED, row.value);
    }

    /** PUT /api/promo-codes/:id: `promoCode.update(body)` on the fetched row. */
    method PutPromoCode(id: int, req: PromoRequest) returns (response: Response<PromoCode>)
      requires Valid()
      modifies this
      ensures Valid()
      ensures Handled(response, Tables()) == UpdatePromoCode(old(Tables()), id, req)
    {
      if id !in codes {
        return Failure(NOT_FOUND, NOT_FOUND_MESSAGE);
      }
      var row := Updated(codes[id], req);
      if row.None? || !RowValid(row.value) || CodeTaken(codes, row.value.code, id) {
        return Failure(SERVER_ERROR, UPDATE_FAILED);
      }
      codes := codes[id := row.value];
      response := Success(OK, row.value);
    }

    /** DELETE /api/promo-codes/:id. */
    method DeletePromoCode(id: int) returns (response: Response<string>)
      requires Valid()
      modifies this
      ensures Valid()
      ensures Handled(response, Tables()) == RemovePromoCode(old(Tables()), id)
    {
      if id !in codes {
        return Failure(NOT_FOUND, NOT_FOUND_MESSAGE);
      }
      codes := codes - {id};
      response := Success(OK, DELETED);
    }
  }
}
