/** `GET /api/wallet/balance`: the signed-in user's wallet, created with a
    zero balance on first use. A read that fails for any reason other than
    "no row" is reported with the store's message. */
module BalanceRoute {
  import opened Base
  import opened Database

  const CreateFailed := Response(500, Error("Failed to create wallet"))

  /** The wallet row as the response shows it. */
  function WalletValue(user: UserId, balance: int): (v: Value)
    ensures v.Object? && v.fields.Keys == {"user_id", "balance"}
    ensures v.fields["user_id"] == Text(user) && v.fields["balance"] == Number(balance)
  {
    Object(map["user_id" := Text(user), "balance" := Number(balance)])
  }

  /** `readFault` is the message of a read error other than a missing row;
      `insertOk` whether the store accepts the new wallet. */
  function GetSpec(db: Db, user: Option<AuthUser>, readFault: Option<string>, insertOk: bool): (r: (Db, Response))
    ensures user.None? ==> r == (db, Unauthorized)
    ensures user.Some? && readFault.Some? ==> r == (db, Response(500, Error(readFault.value)))
    // an existing wallet is reported as it is, and nothing changes
    ensures user.Some? && readFault.None? && user.value.id in db.wallets ==>
              r == (db, Response(200, Json(map["wallet" := WalletValue(user.value.id, db.wallets[user.value.id])])))
    // a missing wallet is created empty, or the failure to create it reported
    ensures user.Some? && readFault.None? && user.value.id !in db.wallets ==>
              if insertOk then r.0 == db.(wallets := db.wallets[user.value.id := 0]) && r.1.status == 200
              else r == (db, CreateFailed)
    // existing balances never change
    ensures forall u :: u in db.wallets ==> u in r.0.wallets && r.0.wallets[u] == db.wallets[u]
    ensures r.1.status == 200 ==> r.1.body == Json(map["wallet" := WalletValue(user.value.id, r.0.wallets[user.value.id])])
  {
    if user.None? then (db, Unauthorized)
    else if readFault.Some? then (db, Response(500, Error(readFault.value)))
    else
      var u := user.value.id;
      if u in db.wallets then (db, Response(200, Json(map["wallet" := WalletValue(u, db.wallets[u])])))
      else if !insertOk then (db, CreateFailed)
      else (db.(wallets := db.wallets[u := 0]), Response(200, Json(map["wallet" := WalletValue(u, 0)])))
  }

  /** Reading the balance twice leaves the store as reading it once, with the same answer. */
  lemma GetIdempotent(db: Db, user: Option<AuthUser>, insertOk: bool, insertOk2: bool)
    requires GetSpec(db, user, None, insertOk).1.status == 200
    ensures var once := GetSpec(db, user, None, insertOk);
            GetSpec(once.0, user, None, insertOk2) == once
  {
  }

  method Get(db: Store, user: Option<AuthUser>, readFault: Option<string>, insertOk: bool) returns (resp: Response)
    requires db.Valid()
    modifies db
    ensures db.Valid()
    ensures (db.State(), resp) == GetSpec(old(db.State()), user, readFault, insertOk)
  {
    if user.None? {
      return Unauthorized;
    }
    if readFault.Some? {
      return Response(500, Error(readFault.value));
    }
    var u := user.value.id;
    if u in db.wallets {
      return Response(200, Json(map["wallet" := WalletValue(u, db.wallets[u])]));
    }
    var created := db.InsertWallet(u, 0, insertOk);
    if !created {
      return CreateFailed;
    }
    resp := Response(200, Json(map["wallet" := WalletValue(u, 0)]));
  }
}
