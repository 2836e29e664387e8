/** `POST /api/services/electricity`: pay a prepaid or postpaid meter. The
    request must name a distribution company, a meter, a meter type and an
    amount of at least 1,000 naira; the details are kept in the row's `meta`
    member, and the token and units the gateway returns are merged into it. */
module ElectricityRoute {
  import opened Base
  import opened Database
  import opened Purchase

  datatype Request = Request(disco: Option<string>, meterNumber: Option<string>,
                             amount: Option<int>, meterType: Option<string>)

  const MissingFields := "Disco, meter number, amount, and meter type are required"
  const BelowMinimum := "Minimum amount is ₦1,000"
  const Declined := "Electricity payment failed"
  const MinimumAmount := 1000

  predicate Complete(req: Request)
  {
    Given(req.disco) && Given(req.meterNumber) && GivenNumber(req.amount) && Given(req.meterType)
  }

  function Check(req: Request): (r: Result<Order, string>)
    ensures !Complete(req) ==> r == Err(MissingFields)
    ensures Complete(req) ==> (r.Err? <==> req.amount.value < MinimumAmount)
    ensures r.Err? ==> r.error in {MissingFields, BelowMinimum}
    // an accepted order charges at least the minimum, and records the meter in `meta`
    ensures r.Ok? ==>
              Complete(req) && r.value.kind == Electricity &&
              r.value.amount == req.amount.value && r.value.amount >= MinimumAmount &&
              r.value.description == None && r.value.column == Meta &&
              r.value.details == map["disco" := Text(req.disco.value),
                                     "meter_number" := Text(req.meterNumber.value),
                                     "meter_type" := Text(req.meterType.value)]
  {
    if !Complete(req) then Err(MissingFields)
    else if req.amount.value < MinimumAmount then Err(BelowMinimum)
    else
      Ok(Order(Electricity, req.amount.value, None, Meta,
               map["disco" := Text(req.disco.value),
                   "meter_number" := Text(req.meterNumber.value),
                   "meter_type" := Text(req.meterType.value)],
               Declined))
  }

  /** The success body; the gateway's optional members are left out when absent. */
  function SuccessBody(req: Request, reference: string, receipt: Receipt): (f: Fields)
    requires Complete(req)
    ensures f.Keys <= {"message", "reference", "amount", "meterNumber", "token", "units", "customerName"}
    ensures "reference" in f && f["reference"] == Text(reference)
    ensures "amount" in f && f["amount"] == Number(req.amount.value)
    ensures "meterNumber" in f && f["meterNumber"] == Text(req.meterNumber.value)
    // each member the gateway returned is passed on as it is, and a missing one is left out
    ensures "token" in f <==> receipt.token.Some?
    ensures receipt.token.Some? ==> "token" in f && f["token"] == Text(receipt.token.value)
    ensures "units" in f <==> receipt.units.Some?
    ensures receipt.units.Some? ==> "units" in f && f["units"] == Text(receipt.units.value)
    ensures "customerName" in f <==> receipt.customerName.Some?
    ensures receipt.customerName.Some? ==> "customerName" in f && f["customerName"] == Text(receipt.customerName.value)
  {
    map["message" := Text("Electricity payment successful"),
        "reference" := Text(reference),
        "amount" := Number(req.amount.value),
        "meterNumber" := Text(req.meterNumber.value)] + GatewayMembers(receipt)
  }

  /** The members the gateway's answer contributes, each only when it is present. */
  function GatewayMembers(receipt: Receipt): (g: Fields)
    ensures g.Keys <= {"token", "units", "customerName"}
    ensures "token" in g <==> receipt.token.Some?
    ensures receipt.token.Some? ==> g["token"] == Text(receipt.token.value)
    ensures "units" in g <==> receipt.units.Some?
    ensures receipt.units.Some? ==> g["units"] == Text(receipt.units.value)
    ensures "customerName" in g <==> receipt.customerName.Some?
    ensures receipt.customerName.Some? ==> g["customerName"] == Text(receipt.customerName.value)
  {
    Put(Put(Put(map[], "token", TextOf(receipt.token)), "units", TextOf(receipt.units)),
        "customerName", TextOf(receipt.customerName))
  }

  function PostSpec(db: Db, user: Option<AuthUser>, req: Request, reference: string, now: int,
                    gateway: Gateway, writes: Writes): (r: (Db, Response))
    ensures user.None? ==> r == (db, Unauthorized)
    ensures user.Some? && Check(req).Err? ==> r == (db, Response(400, Error(Check(req).error)))
    ensures user.Some? && Check(req).Ok? ==>
              r.0 == PurchaseSpec(db, user.value.id, Check(req).value, reference, now, gateway, writes).0
    ensures r.1.status == 200 <==>
              user.Some? && Check(req).Ok? && Affordable(db, user.value.id, req.amount.value) &&
              writes.insert && gateway.Fulfilled?
    ensures r.1.status == 200 ==> r.1.body == Json(SuccessBody(req, reference, gateway.receipt))
    // every other outcome of a valid order is the response the purchase protocol stopped with
    ensures user.Some? && Check(req).Ok? && r.1.status != 200 ==>
              var step := PurchaseSpec(db, user.value.id, Check(req).value, reference, now, gateway, writes).1;
              step.Stopped? && r.1 == step.response
  {
    if user.None? then (db, Unauthorized)
    else
      match Check(req)
      case Err(message) => (db, Response(400, Error(message)))
      case Ok(order) =>
        var (after, step) := PurchaseSpec(db, user.value.id, order, reference, now, gateway, writes);
        (after, if step.Done? then Response(200, Json(SuccessBody(req, reference, step.receipt)))
                else step.response)
  }

  /** A settled electricity row carries the gateway's token and units in
      `meta`, next to the meter details it was created with. */
  lemma SettledRowKeepsToken(db: Db, user: AuthUser, req: Request, reference: string, now: int,
                             receipt: Receipt, debit: bool)
    requires Check(req).Ok? && Affordable(db, user.id, req.amount.value)
    requires receipt.token.Some? && receipt.units.Some?
    ensures var r := PostSpec(db, Some(user), req, reference, now, Fulfilled(receipt), Writes(true, debit, true));
            |r.0.txs| == |db.txs| + 1 &&
            var t := r.0.txs[|db.txs|];
            t.status == Success && t.meta.Some? && t.metadata == None &&
            "token" in t.meta.value && t.meta.value["token"] == Text(receipt.token.value) &&
            "units" in t.meta.value && t.meta.value["units"] == Text(receipt.units.value) &&
            "meter_number" in t.meta.value && t.meta.value["meter_number"] == Text(req.meterNumber.value)
  {
    var order := Check(req).value;
    FulfilledRow(db, user.id, order, reference, now, receipt, debit);
    var m := Artifacts(Electricity, order.details, receipt);
    assert "meter_number" in order.details;
    assert m == Put(Put(Put(order.details, "inlomax_request_id", TextOf(receipt.requestId)),
                        "token", TextOf(receipt.token)), "units", TextOf(receipt.units));
  }

  /** An electricity payment never raises a balance: the amount is at least the minimum. */
  lemma PaymentNeverCredits(db: Db, user: Option<AuthUser>, req: Request, reference: string, now: int,
                            gateway: Gateway, writes: Writes)
    ensures var r := PostSpec(db, user, req, reference, now, gateway, writes);
            forall u :: u in db.wallets ==> u in r.0.wallets && r.0.wallets[u] <= db.wallets[u]
  {
  }

  method Post(db: Store, user: Option<AuthUser>, req: Request, reference: string, now: int,
              gateway: Gateway, writes: Writes) returns (resp: Response)
    requires db.Valid()
    modifies db
    ensures db.Valid()
    ensures (db.State(), resp) == PostSpec(old(db.State()), user, req, reference, now, gateway, writes)
  {
    if user.None? {
      return Unauthorized;
    }
    var checked := Check(req);
    if checked.Err? {
      return Response(400, Error(checked.error));
    }
    var step := Fulfil(db, user.value.id, checked.value, reference, now, gateway, writes);
    resp := if step.Done? then Response(200, Json(SuccessBody(req, reference, step.receipt)))
            else step.response;
  }
}
