/** `/api/services/education`: exam pins. POST buys between one and ten pins
    of one exam at the fixed price per pin; GET lists the exams and prices. */
module EducationRoute {
  import opened Base
  import opened Database
  import opened Purchase

  /** The price per pin of each exam, in the order the catalogue lists them. */
  const ExamPrices: seq<(string, nat)> := [("WAEC", 3450), ("NECO", 1200), ("NABTEB", 1500), ("JAMB", 4700)]

  /** `EXAM_PRICES[name]`: the price of the first entry with that name. */
  function Lookup(table: seq<(string, nat)>, name: string): (r: Option<nat>)
    ensures r.Some? <==> exists i :: 0 <= i < |table| && table[i].0 == name
    ensures r.Some? ==> exists i :: 0 <= i < |table| && table[i] == (name, r.value) &&
                                    forall j :: 0 <= j < i ==> table[j].0 != name
  {
    if table == [] then None
    else if table[0].0 == name then Some(table[0].1)
    else
      var r := Lookup(table[1..], name);
      if r.Some? then
        var i :| 0 <= i < |table[1..]| && table[1..][i] == (name, r.value) &&
                 forall j :: 0 <= j < i ==> table[1..][j].0 != name;
        assert table[i + 1] == (name, r.value);
        r
      else
        r
  }

  function ExamPrice(name: string): Option<nat>
  {
    Lookup(ExamPrices, name)
  }

  /** Every exam has a price between the cheapest (NECO) and the dearest (JAMB). */
  lemma ExamPriceRange(name: string)
    ensures ExamPrice(name).Some? <==> name in {"WAEC", "NECO", "NABTEB", "JAMB"}
    ensures ExamPrice(name).Some? ==> 1200 <= ExamPrice(name).value <= 4700
  {
    var r := ExamPrice(name);
    if r.Some? {
      var i :| 0 <= i < |ExamPrices| && ExamPrices[i] == (name, r.value);
      assert i in {0, 1, 2, 3};
    }
    if name in {"WAEC", "NECO", "NABTEB", "JAMB"} {
      var i := if name == "WAEC" then 0 else if name == "NECO" then 1 else if name == "NABTEB" then 2 else 3;
      assert ExamPrices[i].0 == name;
    }
  }

  /** `quantity` defaults to 1 when the body leaves it out. */
  datatype Request = Request(examType: Option<string>, quantity: Option<int>)

  const MissingExam := "Exam type is required"
  const InvalidExam := "Invalid exam type"
  const BadQuantity := "Quantity must be between 1 and 10"
  const Declined := "Education pin purchase failed"

  function Quantity(req: Request): int
  {
    if req.quantity.Some? then req.quantity.value else 1
  }

  function Check(req: Request): (r: Result<Order, string>)
    ensures !Given(req.examType) ==> r == Err(MissingExam)
    ensures Given(req.examType) && ExamPrice(req.examType.value).None? ==> r == Err(InvalidExam)
    ensures Given(req.examType) && ExamPrice(req.examType.value).Some? ==>
              (r.Err? <==> !(1 <= Quantity(req) <= 10))
    ensures r.Err? ==> r.error in {MissingExam, InvalidExam, BadQuantity}
    // the amount is the price of one pin times the number of pins
    ensures r.Ok? ==>
              Given(req.examType) && ExamPrice(req.examType.value).Some? && 1 <= Quantity(req) <= 10 &&
              r.value.kind == Education && r.value.column == Metadata &&
              r.value.amount == ExamPrice(req.examType.value).value * Quantity(req) &&
              r.value.description == Some(req.examType.value + " Pin(s) x" + NatToString(Quantity(req))) &&
              r.value.details == map["exam_type" := Text(req.examType.value), "quantity" := Number(Quantity(req))]
  {
    if !Given(req.examType) then Err(MissingExam)
    else
      var price := ExamPrice(req.examType.value);
      if price.None? then Err(InvalidExam)
      else
        var quantity := Quantity(req);
        if quantity < 1 || quantity > 10 then Err(BadQuantity)
        else
          Ok(Order(Education, price.value * quantity,
                   Some(req.examType.value + " Pin(s) x" + NatToString(quantity)),
                   Metadata,
                   map["exam_type" := Text(req.examType.value), "quantity" := Number(quantity)],
                   Declined))
  }

  /** An accepted order costs between one NECO pin and ten JAMB pins. */
  lemma OrderAmountRange(req: Request)
    requires Check(req).Ok?
    ensures 1200 <= Check(req).value.amount <= 47000
  {
    ExamPriceRange(req.examType.value);
  }

  function SuccessBody(req: Request, order: Order, reference: string, receipt: Receipt): (f: Fields)
    requires Given(req.examType)
    ensures f.Keys <= {"message", "reference", "amount", "examType", "quantity", "pins"}
    ensures "reference" in f && f["reference"] == Text(reference)
    ensures "amount" in f && f["amount"] == Number(order.amount)
    ensures "examType" in f && f["examType"] == Text(req.examType.value)
    ensures "quantity" in f && f["quantity"] == Number(Quantity(req))
    // the pins are passed on, each with its serial, when the gateway issued them
    ensures "pins" in f <==> receipt.pins.Some?
    ensures receipt.pins.Some? ==>
              "pins" in f && f["pins"].List? && |f["pins"].items| == |receipt.pins.value| &&
              forall i :: 0 <= i < |receipt.pins.value| ==>
                f["pins"].items[i] == Object(map["pin" := Text(receipt.pins.value[i].pin),
                                                 "serial" := Text(receipt.pins.value[i].serial)])
  {
    Put(map["message" := Text("Education pin purchase successful"),
            "reference" := Text(reference),
            "amount" := Number(order.amount),
            "examType" := Text(req.examType.value),
            "quantity" := Number(Quantity(req))],
        "pins", PinsOf(receipt.pins))
  }

  function PostSpec(db: Db, user: Option<AuthUser>, req: Request, reference: string, now: int,
                    gateway: Gateway, writes: Writes): (r: (Db, Response))
    ensures user.None? ==> r == (db, Unauthorized)
    ensures user.Some? && Check(req).Err? ==> r == (db, Response(400, Error(Check(req).error)))
    ensures user.Some? && Check(req).Ok? ==>
              r.0 == PurchaseSpec(db, user.value.id, Check(req).value, reference, now, gateway, writes).0
    ensures r.1.status == 200 <==>
              user.Some? && Check(req).Ok? && Affordable(db, user.value.id, Check(req).value.amount) &&
              writes.insert && gateway.Fulfilled?
    ensures r.1.status == 200 ==>
              r.1.body == Json(SuccessBody(req, Check(req).value, reference, gateway.receipt))
    // every other outcome of a valid order is the response the purchase protocol stopped with
    ensures user.Some? && Check(req).Ok? && r.1.status != 200 ==>
              var step := PurchaseSpec(db, user.value.id, Check(req).value, reference, now, gateway, writes).1;
              step.Stopped? && r.1 == step.response
  {
    if user.None? then (db, Unauthorized)
    else
      match Check(req)
      case Err(message) => (db, Response(400, Error(message)))
      case Ok(order) =>
        var (after, step) := PurchaseSpec(db, user.value.id, order, reference, now, gateway, writes);
        (after, if step.Done? then Response(200, Json(SuccessBody(req, order, reference, step.receipt)))
                else step.response)
  }

  /** A settled education row keeps the pins the gateway issued next to the exam and quantity. */
  lemma SettledRowKeepsPins(db: Db, user: AuthUser, req: Request, reference: string, now: int,
                            receipt: Receipt, debit: bool)
    requires Check(req).Ok? && Affordable(db, user.id, Check(req).value.amount)
    requires receipt.pins.Some?
    ensures var r := PostSpec(db, Some(user), req, reference, now, Fulfilled(receipt), Writes(true, debit, true));
            |r.0.txs| == |db.txs| + 1 &&
            var t := r.0.txs[|db.txs|];
            t.status == Success && t.metadata.Some? &&
            "pins" in t.metadata.value && t.metadata.value["pins"] == PinsOf(receipt.pins).value &&
            "exam_type" in t.metadata.value && t.metadata.value["exam_type"] == Text(req.examType.value) &&
            "quantity" in t.metadata.value && t.metadata.value["quantity"] == Number(Quantity(req))
  {
    var order := Check(req).value;
    CheckedDetails(req);
    FulfilledRow(db, user.id, order, reference, now, receipt, debit);
    PinsBesideDetails(order.details, receipt);
  }

  lemma CheckedDetails(req: Request)
    requires Check(req).Ok?
    ensures var d := Check(req).value.details;
            "exam_type" in d && d["exam_type"] == Text(req.examType.value) &&
            "quantity" in d && d["quantity"] == Number(Quantity(req))
  {
  }

  lemma PinsBesideDetails(details: Fields, receipt: Receipt)
    requires receipt.pins.Some?
    requires "exam_type" in details && "quantity" in details
    ensures var m := Artifacts(Education, details, receipt);
            "pins" in m && m["pins"] == PinsOf(receipt.pins).value &&
            "exam_type" in m && m["exam_type"] == details["exam_type"] &&
            "quantity" in m && m["quantity"] == details["quantity"]
  {
  }

  method Post(db: Store, user: Option<AuthUser>, req: Request, reference: string, now: int,
              gateway: Gateway, writes: Writes) returns (resp: Response)
    requires db.Valid()
    modifies db
    ensures db.Valid()
    ensures (db.State(), resp) == PostSpec(old(db.State()), user, req, reference, now, gateway, writes)
  {
    if user.None? {
      return Unauthorized;
    }
    var checked := Check(req);
    if checked.Err? {
      return Response(400, Error(checked.error));
    }
    var order := checked.value;
    var step := Fulfil(db, user.value.id, order, reference, now, gateway, writes);
    resp := if step.Done? then Response(200, Json(SuccessBody(req, order, reference, step.receipt)))
            else step.response;
  }

  function ExamEntry(e: (string, nat)): Value
  {
    Object(map["name" := Text(e.0), "price" := Number(e.1)])
  }

  /** GET: `{ exams: [{ name, price }, ...] }`, one entry per exam in table order. */
  function Catalogue(): (f: Fields)
    ensures f.Keys == {"exams"} && f["exams"].List? && |f["exams"].items| == |ExamPrices|
    ensures forall i :: 0 <= i < |ExamPrices| ==>
              f["exams"].items[i] == ExamEntry(ExamPrices[i]) &&
              ExamPrice(ExamPrices[i].0) == Some(ExamPrices[i].1)
  {
    assert forall i :: 0 <= i < |ExamPrices| ==> ExamPrice(ExamPrices[i].0) == Some(ExamPrices[i].1) by {
      forall i | 0 <= i < |ExamPrices| ensures ExamPrice(ExamPrices[i].0) == Some(ExamPrices[i].1) {
        var r := ExamPrice(ExamPrices[i].0);
        var k :| 0 <= k < |ExamPrices| && ExamPrices[k] == (ExamPrices[i].0, r.value) &&
                 forall j :: 0 <= j < k ==> ExamPrices[j].0 != ExamPrices[i].0;
        assert k == i by {
          assert k in {0, 1, 2, 3} && i in {0, 1, 2, 3};
        }
      }
    }
    map["exams" := List(seq(|ExamPrices|, i requires 0 <= i < |ExamPrices| => ExamEntry(ExamPrices[i])))]
  }
}
