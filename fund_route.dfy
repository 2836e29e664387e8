/** `POST /api/wallet/fund`: add a positive amount to the signed-in user's
    wallet and record a `wallet_fund` row carrying the payment reference. A
    row the store rejects is only logged: the funding still succeeds. */
module FundRoute {
  import opened Base
  import opened Database

  datatype Request = Request(amount: Option<int>, paymentReference: Option<string>)

  /** Whether the store accepts the balance update and the ledger row. */
  datatype Writes = Writes(update: bool, record: bool)

  const InvalidAmount := Response(400, Error("Invalid amount"))
  const WalletNotFound := Response(404, Error("Wallet not found"))
  const UpdateFailed := Response(500, Error("Failed to update wallet"))

  /** The ledger row: a settled credit of the amount, keeping the payment reference when one was given. */
  function FundRow(user: UserId, amount: int, payment: Option<string>, reference: string, now: int): (t: Tx)
    ensures t.userId == user && t.kind == WalletFund && t.status == Success
    ensures t.amount == amount && t.reference == reference && t.meta == None
    ensures t.metadata.Some? && t.metadata.value.Keys <= {"payment_reference"}
    ensures "payment_reference" in t.metadata.value <==> payment.Some?
    ensures payment.Some? ==> t.metadata.value["payment_reference"] == Text(payment.value)
  {
    Tx(user, WalletFund, amount, Success, reference, Some("Wallet funding"),
       Some(Put(map[], "payment_reference", TextOf(payment))), None, now)
  }

  function PostSpec(db: Db, user: Option<AuthUser>, req: Request, reference: string, now: int,
                    writes: Writes): (r: (Db, Response))
    ensures r.0.profiles == db.profiles && r.0.wallets.Keys == db.wallets.Keys
    ensures user.None? ==> r == (db, Unauthorized)
    ensures user.Some? && (req.amount.None? || req.amount.value <= 0) ==> r == (db, InvalidAmount)
    ensures user.Some? && req.amount.Some? && req.amount.value > 0 && user.value.id !in db.wallets ==>
              r == (db, WalletNotFound)
    ensures user.Some? && req.amount.Some? && req.amount.value > 0 && user.value.id in db.wallets && !writes.update ==>
              r == (db, UpdateFailed)
    // 200 exactly when a positive amount reaches an existing wallet, which grows by it
    ensures r.1.status == 200 <==>
              user.Some? && req.amount.Some? && req.amount.value > 0 && user.value.id in db.wallets && writes.update
    ensures r.1.status == 200 ==>
              var u := user.value.id;
              r.0.wallets == db.wallets[u := db.wallets[u] + req.amount.value] &&
              r.1.body.Json? && "balance" in r.1.body.fields && r.1.body.fields["balance"] == Number(r.0.wallets[u]) &&
              "reference" in r.1.body.fields && r.1.body.fields["reference"] == Text(reference) &&
              r.0.txs == db.txs + (if writes.record then [FundRow(u, req.amount.value, req.paymentReference, reference, now)] else [])
    ensures r.1.status != 200 ==> r.0 == db
  {
    if user.None? then (db, Unauthorized)
    else if req.amount.None? || req.amount.value <= 0 then (db, InvalidAmount)
    else
      var u := user.value.id;
      if u !in db.wallets then (db, WalletNotFound)
      else
        var balance := db.wallets[u] + req.amount.value;
        if !writes.update then (db, UpdateFailed)
        else
          var rows := if writes.record then [FundRow(u, req.amount.value, req.paymentReference, reference, now)] else [];
          (db.(wallets := db.wallets[u := balance], txs := db.txs + rows),
           Response(200, Json(map["message" := Text("Wallet funded successfully"),
                                  "balance" := Number(balance),
                                  "reference" := Text(reference)])))
  }

  /** Funding adds exactly the amount to the money in all wallets when it succeeds, and nothing otherwise. */
  lemma FundMoney(db: Db, user: Option<AuthUser>, req: Request, reference: string, now: int, writes: Writes)
    ensures var r := PostSpec(db, user, req, reference, now, writes);
            Total(r.0.wallets) == Total(db.wallets) + (if r.1.status == 200 then req.amount.value else 0)
  {
    var r := PostSpec(db, user, req, reference, now, writes);
    if r.1.status == 200 {
      TotalUpdate(db.wallets, user.value.id, db.wallets[user.value.id] + req.amount.value);
    }
  }

  method Post(db: Store, user: Option<AuthUser>, req: Request, reference: string, now: int,
              writes: Writes) returns (resp: Response)
    requires db.Valid()
    modifies db
    ensures db.Valid()
    ensures (db.State(), resp) == PostSpec(old(db.State()), user, req, reference, now, writes)
  {
    if user.None? {
      return Unauthorized;
    }
    if req.amount.None? || req.amount.value <= 0 {
      return InvalidAmount;
    }
    var u := user.value.id;
    if u !in db.wallets {
      return WalletNotFound;
    }
    var balance := db.wallets[u] + req.amount.value;
    db.UpdateBalance(u, balance, writes.update);
    if !writes.update {
      return UpdateFailed;
    }
    // a rejected row is logged and otherwise ignored
    ghost var before := db.txs;
    var _ := db.InsertTx(FundRow(u, req.amount.value, req.paymentReference, reference, now), writes.record);
    assert db.txs == before + (if writes.record then [FundRow(u, req.amount.value, req.paymentReference, reference, now)] else []);
    resp := Response(200, Json(map["message" := Text("Wallet funded successfully"),
                                   "balance" := Number(balance),
                                   "reference" := Text(reference)]));
  }
}
