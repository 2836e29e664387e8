/** `POST /api/services/data`: buy a data bundle for a phone number. The
    request must name a network, a phone number, a plan and a non-zero amount,
    and the sanitised phone number must be a valid Nigerian mobile number;
    the purchase then runs the shared protocol of module `Purchase`. */
module DataRoute {
  import opened Base
  import opened Utils
  import opened Database
  import opened Purchase

  /** The JSON body; a member is None when it is missing. */
  datatype Request = Request(network: Option<string>, phoneNumber: Option<string>,
                             planId: Option<string>, amount: Option<int>)

  const MissingFields := "Network, phone number, plan ID, and amount are required"
  const InvalidPhone := "Invalid phone number format"
  const Declined := "Data purchase failed"

  predicate Complete(req: Request)
  {
    Given(req.network) && Given(req.phoneNumber) && Given(req.planId) && GivenNumber(req.amount)
  }

  /** The request's validation, and the purchase it describes. */
  function Check(req: Request): (r: Result<Order, string>)
    ensures !Complete(req) ==> r == Err(MissingFields)
    ensures Complete(req) ==>
              (r.Err? <==> !ValidatePhoneNumber(SanitizePhoneNumber(req.phoneNumber.value)))
    ensures r.Err? ==> r.error in {MissingFields, InvalidPhone}
    // an accepted order charges the requested amount for the sanitised, valid number
    ensures r.Ok? ==>
              Complete(req) && r.value.kind == Data && r.value.amount == req.amount.value &&
              r.value.column == Metadata &&
              r.value.details.Keys == {"network", "phone_number", "plan_id"} &&
              r.value.details["network"] == Text(req.network.value) &&
              r.value.details["plan_id"] == Text(req.planId.value) &&
              r.value.details["phone_number"].Text? &&
              ValidatePhoneNumber(r.value.details["phone_number"].text) &&
              r.value.details["phone_number"].text == SanitizePhoneNumber(req.phoneNumber.value) &&
              r.value.description == Some(req.network.value + " data bundle to " + r.value.details["phone_number"].text)
  {
    if !Complete(req) then Err(MissingFields)
    else
      var phone := SanitizePhoneNumber(req.phoneNumber.value);
      if !ValidatePhoneNumber(phone) then Err(InvalidPhone)
      else
        Ok(Order(Data, req.amount.value,
                 Some(req.network.value + " data bundle to " + phone),
                 Metadata,
                 map["network" := Text(req.network.value),
                     "phone_number" := Text(phone),
                     "plan_id" := Text(req.planId.value)],
                 Declined))
  }

  /** The success body reports the number the bundle went to: the sanitised,
      validated one recorded in the row, not the one the request gave. */
  function SuccessBody(req: Request, reference: string): (f: Fields)
    requires Check(req).Ok?
    ensures f.Keys == {"message", "reference", "amount", "phoneNumber", "network"}
    ensures f["reference"] == Text(reference) && f["amount"] == Number(Check(req).value.amount)
    ensures f["phoneNumber"] == Check(req).value.details["phone_number"] &&
            f["phoneNumber"] == Text(SanitizePhoneNumber(req.phoneNumber.value)) &&
            ValidatePhoneNumber(f["phoneNumber"].text)
    ensures f["network"] == Check(req).value.details["network"]
  {
    map["message" := Text("Data purchase successful"),
        "reference" := Text(reference),
        "amount" := Number(req.amount.value),
        "phoneNumber" := Text(SanitizePhoneNumber(req.phoneNumber.value)),
        "network" := Text(req.network.value)]
  }

  /** The handler's effect on the store and its response. */
  function PostSpec(db: Db, user: Option<AuthUser>, req: Request, reference: string, now: int,
                    gateway: Gateway, writes: Writes): (r: (Db, Response))
    ensures user.None? ==> r == (db, Unauthorized)
    ensures user.Some? && Check(req).Err? ==> r == (db, Response(400, Error(Check(req).error)))
    ensures user.Some? && Check(req).Ok? ==>
              r.0 == PurchaseSpec(db, user.value.id, Check(req).value, reference, now, gateway, writes).0
    // 200 exactly when the gateway fulfilled a recorded, affordable, valid order
    ensures r.1.status == 200 <==>
              user.Some? && Check(req).Ok? && Affordable(db, user.value.id, req.amount.value) &&
              writes.insert && gateway.Fulfilled?
    ensures r.1.status == 200 ==> r.1.body == Json(SuccessBody(req, reference))
    // every other outcome of a valid order is the response the purchase protocol stopped with
    ensures user.Some? && Check(req).Ok? && r.1.status != 200 ==>
              var step := PurchaseSpec(db, user.value.id, Check(req).value, reference, now, gateway, writes).1;
              step.Stopped? && r.1 == step.response
  {
    if user.None? then (db, Unauthorized)
    else
      match Check(req)
      case Err(message) => (db, Response(400, Error(message)))
      case Ok(order) =>
        var (after, step) := PurchaseSpec(db, user.value.id, order, reference, now, gateway, writes);
        (after, if step.Done? then Response(200, Json(SuccessBody(req, reference)))
               else step.response)
  }

  /** Nothing checks the sign of the amount: a negative amount passes the
      balance test, and a fulfilled purchase then raises the balance by it. */
  lemma NegativeAmountCredits(db: Db, user: AuthUser, req: Request, reference: string, now: int,
                              receipt: Receipt)
    requires Check(req).Ok? && req.amount.value < 0 && user.id in db.wallets && Solvent(db.wallets)
    ensures var r := PostSpec(db, Some(user), req, reference, now, Fulfilled(receipt), Writes(true, true, true));
            r.1.status == 200 && r.0.wallets[user.id] == db.wallets[user.id] + -req.amount.value &&
            r.0.wallets[user.id] > db.wallets[user.id]
  {
  }

  /** The handler against the store. */
  method Post(db: Store, user: Option<AuthUser>, req: Request, reference: string, now: int,
              gateway: Gateway, writes: Writes) returns (resp: Response)
    requires db.Valid()
    modifies db
    ensures db.Valid()
    ensures (db.State(), resp) == PostSpec(old(db.State()), user, req, reference, now, gateway, writes)
  {
    if user.None? {
      return Unauthorized;
    }
    var checked := Check(req);
    if checked.Err? {
      return Response(400, Error(checked.error));
    }
    var order := checked.value;
    var step := Fulfil(db, user.value.id, order, reference, now, gateway, writes);
    resp := if step.Done? then Response(200, Json(SuccessBody(req, reference)))
            else step.response;
  }
}
