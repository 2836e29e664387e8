/** `POST /api/wallet/withdraw`: take a positive amount out of the signed-in
    user's wallet towards a bank account. The balance drops at once; the row
    is recorded as a pending `wallet_transfer` of the negated amount. */
module WithdrawRoute {
  import opened Base
  import opened Database
  import FundRoute

  datatype Request = Request(amount: Option<int>, bankAccount: Option<string>, bankName: Option<string>)

  /** Whether the store accepts the balance update and the ledger row. */
  datatype Writes = Writes(update: bool, record: bool)

  const InvalidAmount := Response(400, Error("Invalid amount"))
  const MissingBank := Response(400, Error("Bank details are required"))
  const WalletNotFound := Response(404, Error("Wallet not found"))
  const InsufficientBalance := Response(400, Error("Insufficient balance"))
  const UpdateFailed := Response(500, Error("Failed to update wallet"))

  /** A withdrawal the handler goes on to carry out. */
  predicate Allowed(db: Db, user: UserId, req: Request)
  {
    req.amount.Some? && req.amount.value > 0 && Given(req.bankAccount) && Given(req.bankName) &&
    user in db.wallets && db.wallets[user] >= req.amount.value
  }

  /** The ledger row: a pending debit of the amount, naming the bank account it is paid to. */
  function WithdrawRow(user: UserId, req: Request, reference: string, now: int): (t: Tx)
    requires req.amount.Some? && Given(req.bankAccount) && Given(req.bankName)
    ensures t.userId == user && t.kind == WalletTransfer && t.status == Pending
    ensures t.amount == -req.amount.value && t.reference == reference && t.meta == None
    ensures t.description == Some("Withdrawal to " + req.bankName.value)
    ensures t.metadata == Some(map["bank_account" := Text(req.bankAccount.value), "bank_name" := Text(req.bankName.value)])
  {
    Tx(user, WalletTransfer, -req.amount.value, Pending, reference,
       Some("Withdrawal to " + req.bankName.value),
       Some(map["bank_account" := Text(req.bankAccount.value), "bank_name" := Text(req.bankName.value)]),
       None, now)
  }

  function PostSpec(db: Db, user: Option<AuthUser>, req: Request, reference: string, now: int,
                    writes: Writes): (r: (Db, Response))
    ensures r.0.profiles == db.profiles && r.0.wallets.Keys == db.wallets.Keys
    ensures Solvent(db.wallets) ==> Solvent(r.0.wallets)
    ensures user.None? ==> r == (db, Unauthorized)
    ensures user.Some? && (req.amount.None? || req.amount.value <= 0) ==> r == (db, InvalidAmount)
    ensures user.Some? && req.amount.Some? && req.amount.value > 0 && !(Given(req.bankAccount) && Given(req.bankName)) ==>
              r == (db, MissingBank)
    // with valid details, a missing wallet, a short balance and a rejected update are reported in that order
    ensures user.Some? && req.amount.Some? && req.amount.value > 0 && Given(req.bankAccount) && Given(req.bankName) ==>
              var u := user.value.id;
              (u !in db.wallets ==> r == (db, WalletNotFound)) &&
              (u in db.wallets && db.wallets[u] < req.amount.value ==> r == (db, InsufficientBalance)) &&
              (Allowed(db, u, req) && !writes.update ==> r == (db, UpdateFailed))
    // 200 exactly when a covered withdrawal lands; the wallet then shrinks by the amount
    ensures r.1.status == 200 <==> user.Some? && Allowed(db, user.value.id, req) && writes.update
    ensures r.1.status == 200 ==>
              var u := user.value.id;
              r.0.wallets == db.wallets[u := db.wallets[u] - req.amount.value] &&
              r.1.body.Json? && "balance" in r.1.body.fields && r.1.body.fields["balance"] == Number(r.0.wallets[u]) &&
              "reference" in r.1.body.fields && r.1.body.fields["reference"] == Text(reference) &&
              r.0.txs == db.txs + (if writes.record then [WithdrawRow(u, req, reference, now)] else [])
    ensures r.1.status != 200 ==> r.0 == db
  {
    if user.None? then (db, Unauthorized)
    else if req.amount.None? || req.amount.value <= 0 then (db, InvalidAmount)
    else if !Given(req.bankAccount) || !Given(req.bankName) then (db, MissingBank)
    else
      var u := user.value.id;
      if u !in db.wallets then (db, WalletNotFound)
      else if db.wallets[u] < req.amount.value then (db, InsufficientBalance)
      else
        var balance := db.wallets[u] - req.amount.value;
        if !writes.update then (db, UpdateFailed)
        else
          var rows := if writes.record then [WithdrawRow(u, req, reference, now)] else [];
          (db.(wallets := db.wallets[u := balance], txs := db.txs + rows),
           Response(200, Json(map["message" := Text("Withdrawal request submitted"),
                                  "balance" := Number(balance),
                                  "reference" := Text(reference)])))
  }

  /** Withdrawing what was just funded gives back the balance from before the funding. */
  lemma WithdrawUndoesFund(db: Db, user: AuthUser, amount: int, payment: Option<string>,
                           account: string, bank: string, ref1: string, ref2: string, now: int)
    requires user.id in db.wallets && db.wallets[user.id] >= 0 && amount > 0 && account != "" && bank != ""
    ensures var funded := FundRoute.PostSpec(db, Some(user), FundRoute.Request(Some(amount), payment), ref1, now,
                                             FundRoute.Writes(true, true)).0;
            var r := PostSpec(funded, Some(user), Request(Some(amount), Some(account), Some(bank)), ref2, now,
                              Writes(true, true));
            r.1.status == 200 && r.0.wallets == db.wallets && |r.0.txs| == |db.txs| + 2
  {
    var funded := FundRoute.PostSpec(db, Some(user), FundRoute.Request(Some(amount), payment), ref1, now,
                                     FundRoute.Writes(true, true)).0;
    assert funded.wallets[user.id := funded.wallets[user.id] - amount] == db.wallets;
  }

  /** A withdrawal takes exactly the amount out of the money in all wallets when it succeeds. */
  lemma WithdrawMoney(db: Db, user: Option<AuthUser>, req: Request, reference: string, now: int, writes: Writes)
    ensures var r := PostSpec(db, user, req, reference, now, writes);
            Total(r.0.wallets) == Total(db.wallets) - (if r.1.status == 200 then req.amount.value else 0)
  {
    var r := PostSpec(db, user, req, reference, now, writes);
    if r.1.status == 200 {
      TotalUpdate(db.wallets, user.value.id, db.wallets[user.value.id] - req.amount.value);
    }
  }

  method Post(db: Store, user: Option<AuthUser>, req: Request, reference: string, now: int,
              writes: Writes) returns (resp: Response)
    requires db.Valid()
    modifies db
    ensures db.Valid()
    ensures (db.State(), resp) == PostSpec(old(db.State()), user, req, reference, now, writes)
  {
    if user.None? {
      return Unauthorized;
    }
    if req.amount.None? || req.amount.value <= 0 {
      return InvalidAmount;
    }
    if !Given(req.bankAccount) || !Given(req.bankName) {
      return MissingBank;
    }
    var u := user.value.id;
    if u !in db.wallets {
      return WalletNotFound;
    }
    if db.wallets[u] < req.amount.value {
      return InsufficientBalance;
    }
    var balance := db.wallets[u] - req.amount.value;
    db.UpdateBalance(u, balance, writes.update);
    if !writes.update {
      return UpdateFailed;
    }
    // the row's insert result is not inspected
    ghost var before := db.txs;
    var _ := db.InsertTx(WithdrawRow(u, req, reference, now), writes.record);
    assert db.txs == before + (if writes.record then [WithdrawRow(u, req, reference, now)] else []);
    resp := Response(200, Json(map["message" := Text("Withdrawal request submitted"),
                                   "balance" := Number(balance),
                                   "reference" := Text(reference)]));
  }
}
