/** The protocol the four purchase routes (data, electricity, cable,
    education) share once a request has passed its own validation: read the
    wallet, refuse a missing wallet or a short balance, record a `pending`
    row, call the gateway, and reconcile the row and the wallet with its
    answer. The gateway is an input: what it answered, or that it threw. */
module Purchase {
  import opened Base
  import opened Database

  datatype Pin = Pin(pin: string, serial: string)

  /** The optional members of a successful gateway response that the routes use. */
  datatype Receipt = Receipt(
    requestId: Option<string>,
    token: Option<string>,
    units: Option<string>,
    customerName: Option<string>,
    pins: Option<seq<Pin>>)

  /** What the gateway call did: answered `status: true`, answered
      `status: false` with a message, or threw (transport or HTTP error). */
  datatype Gateway = Fulfilled(receipt: Receipt) | Declined(message: string) | Threw

  /** Whether the store accepts each write of one purchase: the pending
      insert, the wallet debit, and the update that settles the row. */
  datatype Writes = Writes(insert: bool, debit: bool, settle: bool)

  /** The member a route keeps its details in. */
  datatype Column = Metadata | Meta

  /** A validated purchase: the row's type, the amount to charge, its
      description, the details recorded with it, and the error text used when
      the gateway declines without a message. */
  datatype Order = Order(
    kind: TxType,
    amount: int,
    description: Option<string>,
    column: Column,
    details: Fields,
    fallback: string)

  /** How far the protocol went: stopped with a response, or fulfilled. */
  datatype Step = Stopped(response: Response) | Done(receipt: Receipt)

  const WalletNotFound := Response(404, Error("Wallet not found"))
  const InsufficientBalance := Response(400, Error("Insufficient wallet balance"))
  const InsertFailed := Response(500, Error("Failed to create transaction"))
  const Unavailable := Response(503, Error("Service temporarily unavailable"))

  function PinValue(p: Pin): Value
  {
    Object(map["pin" := Text(p.pin), "serial" := Text(p.serial)])
  }

  function PinsOf(pins: Option<seq<Pin>>): Option<Value>
  {
    match pins
    case Some(ps) => Some(List(seq(|ps|, i requires 0 <= i < |ps| => PinValue(ps[i]))))
    case None => None
  }

  function PendingRow(user: UserId, order: Order, reference: string, now: int): (t: Tx)
    ensures t.userId == user && t.kind == order.kind && t.amount == order.amount
    ensures t.status == Pending && t.reference == reference
    ensures order.column == Metadata ==> t.metadata == Some(order.details) && t.meta == None
    ensures order.column == Meta ==> t.meta == Some(order.details) && t.metadata == None
  {
    Tx(user, order.kind, order.amount, Pending, reference, order.description,
       if order.column == Metadata then Some(order.details) else None,
       if order.column == Meta then Some(order.details) else None,
       now)
  }

  /** The details merged with what the gateway returned: every route adds
      `inlomax_request_id`; electricity adds `token` and `units`, education `pins`. */
  function Artifacts(kind: TxType, details: Fields, r: Receipt): (m: Fields)
    ensures m.Keys <= details.Keys + {"inlomax_request_id", "token", "units", "pins"}
    ensures "inlomax_request_id" in m <==> r.requestId.Some?
    ensures r.requestId.Some? ==> m["inlomax_request_id"] == Text(r.requestId.value)
    ensures forall k :: k in details && k !in {"inlomax_request_id", "token", "units", "pins"} ==> k in m && m[k] == details[k]
    ensures kind == Electricity ==> ("token" in m <==> r.token.Some?) && ("units" in m <==> r.units.Some?)
    ensures kind == Electricity && r.token.Some? ==> "token" in m && m["token"] == Text(r.token.value)
    ensures kind == Electricity && r.units.Some? ==> "units" in m && m["units"] == Text(r.units.value)
    ensures kind == Education ==> ("pins" in m <==> r.pins.Some?)
    ensures kind == Education && r.pins.Some? ==> "pins" in m && m["pins"] == PinsOf(r.pins).value
    // data and cable rows gain only the request id
    ensures kind !in {Electricity, Education} ==> m.Keys <= details.Keys + {"inlomax_request_id"}
  {
    var m := Put(details, "inlomax_request_id", TextOf(r.requestId));
    match kind
    case Electricity => Put(Put(m, "token", TextOf(r.token)), "units", TextOf(r.units))
    case Education => Put(m, "pins", PinsOf(r.pins))
    case _ => m
  }

  /** The pending row after `update({ status: 'success', <column>: {...} })`. */
  function SettledRow(row: Tx, order: Order, r: Receipt): (t: Tx)
    // a success whose route column holds the merged details; every other member is the row's
    ensures t.status == Success
    ensures order.column == Metadata ==> t.metadata == Some(Artifacts(order.kind, order.details, r)) && t.meta == row.meta
    ensures order.column == Meta ==> t.meta == Some(Artifacts(order.kind, order.details, r)) && t.metadata == row.metadata
    ensures t.(status := row.status, metadata := row.metadata, meta := row.meta) == row
  {
    var merged := Some(Artifacts(order.kind, order.details, r));
    if order.column == Metadata then row.(status := Success, metadata := merged)
    else row.(status := Success, meta := merged)
  }

  predicate Affordable(db: Db, user: UserId, amount: int)
  {
    user in db.wallets && db.wallets[user] >= amount
  }

  /** The effect of the protocol on the store, and how far it went. */
  function PurchaseSpec(db: Db, user: UserId, order: Order, reference: string, now: int,
                        gateway: Gateway, writes: Writes): (r: (Db, Step))
    // only the wallet and the ledger are touched, and no balance becomes negative
    ensures r.0.profiles == db.profiles
    ensures Solvent(db.wallets) ==> Solvent(r.0.wallets)
    // a missing wallet, a short balance or a refused insert change nothing
    ensures user !in db.wallets ==> r == (db, Stopped(WalletNotFound))
    ensures user in db.wallets && db.wallets[user] < order.amount ==> r == (db, Stopped(InsufficientBalance))
    ensures Affordable(db, user, order.amount) && !writes.insert ==> r == (db, Stopped(InsertFailed))
    // otherwise exactly one row is appended and the earlier rows are untouched
    ensures Affordable(db, user, order.amount) && writes.insert ==>
              |r.0.txs| == |db.txs| + 1 && r.0.txs[..|db.txs|] == db.txs
    // the row is the order's, and it leaves pending exactly when the settle write lands
    ensures Affordable(db, user, order.amount) && writes.insert ==>
              var t := r.0.txs[|db.txs|];
              t.userId == user && t.kind == order.kind && t.amount == order.amount &&
              t.reference == reference && t.description == order.description &&
              (t.status == Pending <==> !writes.settle) &&
              (t.status == Success <==> writes.settle && gateway.Fulfilled?) &&
              (t.status == Failed <==> writes.settle && !gateway.Fulfilled?)
    // a row that is not settled with a receipt keeps everything it was inserted with but its status
    ensures Affordable(db, user, order.amount) && writes.insert && !(writes.settle && gateway.Fulfilled?) ==>
              |r.0.txs| == |db.txs| + 1 &&
              r.0.txs[|db.txs|] == PendingRow(user, order, reference, now).(status := r.0.txs[|db.txs|].status)
    // the wallet changes only on fulfilment, to the balance read before the call minus the amount
    ensures r.0.wallets != db.wallets ==>
              Affordable(db, user, order.amount) && writes.insert && gateway.Fulfilled? && writes.debit &&
              r.0.wallets == db.wallets[user := db.wallets[user] - order.amount]
    ensures Affordable(db, user, order.amount) && writes.insert && gateway.Fulfilled? && writes.debit ==>
              r.0.wallets == db.wallets[user := db.wallets[user] - order.amount]
    // the outcome reported
    ensures r.1.Done? <==> Affordable(db, user, order.amount) && writes.insert && gateway.Fulfilled?
    ensures r.1.Done? ==> r.1.receipt == gateway.receipt
    ensures Affordable(db, user, order.amount) && writes.insert && gateway.Declined? ==>
              r.1 == Stopped(Response(400, Error(if gateway.message != "" then gateway.message else order.fallback)))
    ensures Affordable(db, user, order.amount) && writes.insert && gateway.Threw? ==>
              r.1 == Stopped(Unavailable)
  {
    if user !in db.wallets then (db, Stopped(WalletNotFound))
    else
      var balance := db.wallets[user];
      if balance < order.amount then (db, Stopped(InsufficientBalance))
      else if !writes.insert then (db, Stopped(InsertFailed))
      else
        var row := PendingRow(user, order, reference, now);
        match gateway
        case Fulfilled(receipt) =>
          var wallets := if writes.debit then db.wallets[user := balance - order.amount] else db.wallets;
          var settled := if writes.settle then SettledRow(row, order, receipt) else row;
          (db.(wallets := wallets, txs := db.txs + [settled]), Done(receipt))
        case Declined(message) =>
          var failed := if writes.settle then row.(status := Failed) else row;
          (db.(txs := db.txs + [failed]),
           Stopped(Response(400, Error(if message != "" then message else order.fallback))))
        case Threw =>
          var failed := if writes.settle then row.(status := Failed) else row;
          (db.(txs := db.txs + [failed]), Stopped(Unavailable))
  }

  /** The money in all wallets drops by the amount when a fulfilled purchase
      is debited, and is otherwise unchanged. */
  lemma PurchaseMoney(db: Db, user: UserId, order: Order, reference: string, now: int,
                      gateway: Gateway, writes: Writes)
    ensures var r := PurchaseSpec(db, user, order, reference, now, gateway, writes);
            Total(r.0.wallets) == Total(db.wallets) -
              (if Affordable(db, user, order.amount) && writes.insert && gateway.Fulfilled? && writes.debit
               then order.amount else 0)
  {
    if Affordable(db, user, order.amount) && writes.insert && gateway.Fulfilled? && writes.debit {
      TotalUpdate(db.wallets, user, db.wallets[user] - order.amount);
    }
  }

  /** When every write lands and the gateway fulfils, the appended row is the
      pending row settled with the receipt. */
  lemma FulfilledRow(db: Db, user: UserId, order: Order, reference: string, now: int,
                     receipt: Receipt, debit: bool)
    requires Affordable(db, user, order.amount)
    ensures var r := PurchaseSpec(db, user, order, reference, now, Fulfilled(receipt), Writes(true, debit, true));
            |r.0.txs| == |db.txs| + 1 &&
            r.0.txs[|db.txs|] == SettledRow(PendingRow(user, order, reference, now), order, receipt)
  {
  }

  /** Otherwise the appended row is the pending row as inserted: marked
      `failed` when the gateway declined or threw and the update landed,
      left `pending` when the update was refused. */
  lemma UnsettledRow(db: Db, user: UserId, order: Order, reference: string, now: int,
                     gateway: Gateway, writes: Writes)
    requires Affordable(db, user, order.amount) && writes.insert
    requires !(writes.settle && gateway.Fulfilled?)
    ensures var r := PurchaseSpec(db, user, order, reference, now, gateway, writes);
            var row := PendingRow(user, order, reference, now);
            |r.0.txs| == |db.txs| + 1 &&
            r.0.txs[|db.txs|] == (if writes.settle then row.(status := Failed) else row)
  {
  }

  /** The steps of the protocol against the store, in the order the routes issue them. */
  method Fulfil(db: Store, user: UserId, order: Order, reference: string, now: int,
                gateway: Gateway, writes: Writes) returns (step: Step)
    modifies db
    ensures (db.State(), step) == PurchaseSpec(old(db.State()), user, order, reference, now, gateway, writes)
  {
    if user !in db.wallets {
      return Stopped(WalletNotFound);
    }
    // the balance is read once here; the debit below assigns from this read
    var balance := db.wallets[user];
    if balance < order.amount {
      return Stopped(InsufficientBalance);
    }
    var row := PendingRow(user, order, reference, now);
    ghost var before := db.txs;
    var id := db.InsertTx(row, writes.insert);
    if id.None? {
      return Stopped(InsertFailed);
    }
    match gateway
    case Fulfilled(receipt) =>
      db.UpdateBalance(user, balance - order.amount, writes.debit);
      var settled := SettledRow(row, order, receipt);
      db.UpdateTx(id.value, settled, writes.settle);
      assert writes.settle ==> db.txs == before + [settled];
      step := Done(receipt);
    case Declined(message) =>
      db.UpdateTx(id.value, row.(status := Failed), writes.settle);
      assert writes.settle ==> db.txs == before + [row.(status := Failed)];
      step := Stopped(Response(400, Error(if message != "" then message else order.fallback)));
    case Threw =>
      db.UpdateTx(id.value, row.(status := Failed), writes.settle);
      assert writes.settle ==> db.txs == before + [row.(status := Failed)];
      step := Stopped(Unavailable);
  }
}
