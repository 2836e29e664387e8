/** `POST /api/services/cable`: renew a cable TV subscription. The request
    must name the provider, the plan, the smart card and a non-zero amount;
    the amount charged is the one in the request, whatever the plan costs. */
module CableRoute {
  import opened Base
  import opened Database
  import opened Purchase

  datatype Request = Request(cableName: Option<string>, planId: Option<string>,
                             smartCardNumber: Option<string>, amount: Option<int>)

  const MissingFields := "Cable name, plan ID, smart card number, and amount are required"
  const Declined := "Cable TV subscription failed"

  predicate Complete(req: Request)
  {
    Given(req.cableName) && Given(req.planId) && Given(req.smartCardNumber) && GivenNumber(req.amount)
  }

  function Check(req: Request): (r: Result<Order, string>)
    ensures r.Err? <==> !Complete(req)
    ensures r.Err? ==> r.error == MissingFields
    ensures r.Ok? ==>
              r.value.kind == Cable && r.value.amount == req.amount.value && r.value.amount != 0 &&
              r.value.description == None && r.value.column == Meta &&
              r.value.details == map["cable_name" := Text(req.cableName.value),
                                     "plan_id" := Text(req.planId.value),
                                     "smart_card_number" := Text(req.smartCardNumber.value)]
  {
    if !Complete(req) then Err(MissingFields)
    else
      Ok(Order(Cable, req.amount.value, None, Meta,
               map["cable_name" := Text(req.cableName.value),
                   "plan_id" := Text(req.planId.value),
                   "smart_card_number" := Text(req.smartCardNumber.value)],
               Declined))
  }

  function SuccessBody(req: Request, reference: string, receipt: Receipt): (f: Fields)
    requires Complete(req)
    ensures f.Keys <= {"message", "reference", "amount", "smartCardNumber", "customerName"}
    ensures "reference" in f && f["reference"] == Text(reference)
    ensures "amount" in f && f["amount"] == Number(req.amount.value)
    ensures "smartCardNumber" in f && f["smartCardNumber"] == Text(req.smartCardNumber.value)
    // the customer name is passed on when the gateway returned one, and left out otherwise
    ensures "customerName" in f <==> receipt.customerName.Some?
    ensures receipt.customerName.Some? ==> "customerName" in f && f["customerName"] == Text(receipt.customerName.value)
  {
    Put(map["message" := Text("Cable TV subscription successful"),
            "reference" := Text(reference),
            "amount" := Number(req.amount.value),
            "smartCardNumber" := Text(req.smartCardNumber.value)],
        "customerName", TextOf(receipt.customerName))
  }

  function PostSpec(db: Db, user: Option<AuthUser>, req: Request, reference: string, now: int,
                    gateway: Gateway, writes: Writes): (r: (Db, Response))
    ensures user.None? ==> r == (db, Unauthorized)
    ensures user.Some? && !Complete(req) ==> r == (db, Response(400, Error(MissingFields)))
    ensures user.Some? && Complete(req) ==>
              r.0 == PurchaseSpec(db, user.value.id, Check(req).value, reference, now, gateway, writes).0
    ensures r.1.status == 200 <==>
              user.Some? && Complete(req) && Affordable(db, user.value.id, req.amount.value) &&
              writes.insert && gateway.Fulfilled?
    ensures r.1.status == 200 ==> r.1.body == Json(SuccessBody(req, reference, gateway.receipt))
    // every other outcome of a complete request is the response the purchase protocol stopped with
    ensures user.Some? && Complete(req) && r.1.status != 200 ==>
              var step := PurchaseSpec(db, user.value.id, Check(req).value, reference, now, gateway, writes).1;
              step.Stopped? && r.1 == step.response
  {
    if user.None? then (db, Unauthorized)
    else
      match Check(req)
      case Err(message) => (db, Response(400, Error(message)))
      case Ok(order) =>
        var (after, step) := PurchaseSpec(db, user.value.id, order, reference, now, gateway, writes);
        (after, if step.Done? then Response(200, Json(SuccessBody(req, reference, step.receipt)))
                else step.response)
  }

  /** The money in all wallets drops by the requested amount when, and only
      when, a subscription succeeds and its debit lands; the plan plays no part. */
  lemma SubscriptionMoney(db: Db, user: Option<AuthUser>, req: Request, reference: string, now: int,
                          gateway: Gateway, writes: Writes)
    ensures var r := PostSpec(db, user, req, reference, now, gateway, writes);
            Total(r.0.wallets) == Total(db.wallets) -
              (if r.1.status == 200 && writes.debit then req.amount.value else 0)
  {
    if user.Some? && Complete(req) {
      PurchaseMoney(db, user.value.id, Check(req).value, reference, now, gateway, writes);
    }
  }

  method Post(db: Store, user: Option<AuthUser>, req: Request, reference: string, now: int,
              gateway: Gateway, writes: Writes) returns (resp: Response)
    requires db.Valid()
    modifies db
    ensures db.Valid()
    ensures (db.State(), resp) == PostSpec(old(db.State()), user, req, reference, now, gateway, writes)
  {
    if user.None? {
      return Unauthorized;
    }
    var checked := Check(req);
    if checked.Err? {
      return Response(400, Error(checked.error));
    }
    var step := Fulfil(db, user.value.id, checked.value, reference, now, gateway, writes);
    resp := if step.Done? then Response(200, Json(SuccessBody(req, reference, step.receipt)))
            else step.response;
  }
}
