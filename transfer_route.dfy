/** `POST /api/wallet/transfer`: move money from the signed-in user's wallet
    to the wallet of the user whose profile carries the given e-mail. The
    handler debits the sender, credits the recipient (restoring the sender's
    balance when the credit fails), then records one row for each side. */
module TransferRoute {
  import opened Base
  import opened Database

  datatype Request = Request(amount: Option<int>, recipientEmail: Option<string>)

  /** Whether the store accepts each write: the debit, the credit, the
      restoring write after a failed credit, and the two ledger rows. */
  datatype Writes = Writes(debit: bool, credit: bool, rollback: bool, senderRow: bool, recipientRow: bool)

  const InvalidAmount := Response(400, Error("Invalid amount"))
  const MissingRecipient := Response(400, Error("Recipient email is required"))
  const SenderWalletNotFound := Response(404, Error("Sender wallet not found"))
  const InsufficientBalance := Response(400, Error("Insufficient balance"))
  const RecipientNotFound := Response(404, Error("Recipient not found"))
  const SelfTransfer := Response(400, Error("Cannot transfer to yourself"))
  const RecipientWalletNotFound := Response(404, Error("Recipient wallet not found"))
  const DebitFailed := Response(500, Error("Failed to update sender wallet"))
  const CreditFailed := Response(500, Error("Failed to update recipient wallet"))

  /** A transfer the handler goes on to carry out. */
  predicate Allowed(db: Db, sender: UserId, req: Request)
  {
    req.amount.Some? && req.amount.value > 0 && Given(req.recipientEmail) &&
    sender in db.wallets && db.wallets[sender] >= req.amount.value &&
    var recipient := ProfileByEmail(db.profiles, req.recipientEmail.value);
    recipient.Some? && recipient.value != sender && recipient.value in db.wallets
  }

  /** The checks made before any write, in the handler's order: the
      recipient the e-mail names, or the response that stops the transfer. */
  function Authorize(db: Db, sender: UserId, req: Request): (r: Result<UserId, Response>)
    ensures r.Ok? <==> Allowed(db, sender, req)
    ensures r.Ok? ==> r.value == ProfileByEmail(db.profiles, req.recipientEmail.value).value
    // the one profile with that e-mail, someone else's, with a wallet
    ensures r.Ok? ==> r.value != sender && r.value in db.wallets && r.value in db.profiles &&
                      db.profiles[r.value].email == req.recipientEmail.value
    ensures r.Err? ==> r.error.status in {400, 404}
    // the first failing check decides the response
    ensures req.amount.None? || req.amount.value <= 0 ==> r == Err(InvalidAmount)
    ensures req.amount.Some? && req.amount.value > 0 && !Given(req.recipientEmail) ==> r == Err(MissingRecipient)
    ensures req.amount.Some? && req.amount.value > 0 && Given(req.recipientEmail) && sender !in db.wallets ==>
              r == Err(SenderWalletNotFound)
    ensures req.amount.Some? && req.amount.value > 0 && Given(req.recipientEmail) && sender in db.wallets &&
              db.wallets[sender] < req.amount.value ==>
              r == Err(InsufficientBalance)
    // once the amount, the e-mail and the sender's balance pass, the recipient is checked
    ensures req.amount.Some? && req.amount.value > 0 && Given(req.recipientEmail) && sender in db.wallets &&
              db.wallets[sender] >= req.amount.value ==>
              var recipient := ProfileByEmail(db.profiles, req.recipientEmail.value);
              (recipient.None? ==> r == Err(RecipientNotFound)) &&
              (recipient == Some(sender) ==> r == Err(SelfTransfer)) &&
              (recipient.Some? && recipient.value != sender && recipient.value !in db.wallets ==>
                 r == Err(RecipientWalletNotFound))
    ensures r == Err(SelfTransfer) ==> ProfileByEmail(db.profiles, req.recipientEmail.value) == Some(sender)
  {
    if req.amount.None? || req.amount.value <= 0 then Err(InvalidAmount)
    else if !Given(req.recipientEmail) then Err(MissingRecipient)
    else if sender !in db.wallets then Err(SenderWalletNotFound)
    else if db.wallets[sender] < req.amount.value then Err(InsufficientBalance)
    else
      var recipient := ProfileByEmail(db.profiles, req.recipientEmail.value);
      if recipient.None? then Err(RecipientNotFound)
      else if recipient.value == sender then Err(SelfTransfer)
      else if recipient.value !in db.wallets then Err(RecipientWalletNotFound)
      else Ok(recipient.value)
  }

  /** The sender's row: a settled debit of the amount that names the recipient. */
  function SenderRow(user: AuthUser, recipient: UserId, email: string, amount: int,
                     reference: string, now: int): (t: Tx)
    ensures t.userId == user.id && t.kind == WalletTransfer && t.status == Success
    ensures t.amount == -amount && t.reference == reference && t.meta == None
    ensures t.metadata == Some(map["recipient_id" := Text(recipient), "recipient_email" := Text(email)])
  {
    Tx(user.id, WalletTransfer, -amount, Success, reference, Some("Transfer to " + email),
       Some(map["recipient_id" := Text(recipient), "recipient_email" := Text(email)]), None, now)
  }

  /** The recipient's row: a settled credit of the amount that names the sender. */
  function RecipientRow(user: AuthUser, recipient: UserId, amount: int, reference: string, now: int): (t: Tx)
    ensures t.userId == recipient && t.kind == WalletTransfer && t.status == Success
    ensures t.amount == amount && t.reference == reference && t.meta == None
    ensures t.metadata == Some(map["sender_id" := Text(user.id), "sender_email" := Text(user.email)])
  {
    Tx(recipient, WalletTransfer, amount, Success, reference, Some("Transfer from " + user.email),
       Some(map["sender_id" := Text(user.id), "sender_email" := Text(user.email)]), None, now)
  }

  /** The rows whose insert the store accepts, in the order they are issued. */
  function Rows(user: AuthUser, recipient: UserId, email: string, amount: int,
                reference: string, now: int, writes: Writes): seq<Tx>
  {
    (if writes.senderRow then [SenderRow(user, recipient, email, amount, reference, now)] else []) +
    (if writes.recipientRow then [RecipientRow(user, recipient, amount, reference, now)] else [])
  }

  function PostSpec(db: Db, user: Option<AuthUser>, req: Request, reference: string, now: int,
                    writes: Writes): (r: (Db, Response))
    ensures user.None? ==> r == (db, Unauthorized)
    ensures r.0.profiles == db.profiles && r.0.wallets.Keys == db.wallets.Keys
    ensures Solvent(db.wallets) ==> Solvent(r.0.wallets)
    // a refused transfer, or a debit the store rejects, changes nothing
    ensures user.Some? && !Allowed(db, user.value.id, req) ==> r == (db, Authorize(db, user.value.id, req).error)
    ensures user.Some? && Allowed(db, user.value.id, req) && !writes.debit ==> r == (db, DebitFailed)
    // a failed credit leaves the recipient as they were and the sender restored, unless the restore fails too
    ensures user.Some? && Allowed(db, user.value.id, req) && writes.debit && !writes.credit ==>
              r.1 == CreditFailed && r.0.txs == db.txs &&
              r.0.wallets == (if writes.rollback then db.wallets
                              else db.wallets[user.value.id := db.wallets[user.value.id] - req.amount.value])
    // a completed transfer moves the amount from the sender to the recipient and nothing else
    ensures r.1.status == 200 <==> user.Some? && Allowed(db, user.value.id, req) && writes.debit && writes.credit
    ensures r.1.status == 200 ==>
              var sender := user.value.id;
              var recipient := Authorize(db, sender, req).value;
              var amount := req.amount.value;
              r.0.wallets == db.wallets[sender := db.wallets[sender] - amount][recipient := db.wallets[recipient] + amount] &&
              r.0.txs == db.txs + Rows(user.value, recipient, req.recipientEmail.value, amount, reference, now, writes) &&
              r.1.body.Json? && "balance" in r.1.body.fields &&
              r.1.body.fields["balance"] == Number(r.0.wallets[sender]) &&
              "reference" in r.1.body.fields && r.1.body.fields["reference"] == Text(reference)
  {
    if user.None? then (db, Unauthorized)
    else
      var sender := user.value.id;
      match Authorize(db, sender, req)
      case Err(response) => (db, response)
      case Ok(recipient) =>
        var amount := req.amount.value;
        var senderBalance := db.wallets[sender];
        var recipientBalance := db.wallets[recipient];
        if !writes.debit then (db, DebitFailed)
        else
          var debited := db.wallets[sender := senderBalance - amount];
          if !writes.credit then
            (db.(wallets := if writes.rollback then debited[sender := senderBalance] else debited), CreditFailed)
          else
            var rows := Rows(user.value, recipient, req.recipientEmail.value, amount, reference, now, writes);
            (db.(wallets := debited[recipient := recipientBalance + amount], txs := db.txs + rows),
             Response(200, Json(map["message" := Text("Transfer successful"),
                                    "balance" := Number(senderBalance - amount),
                                    "reference" := Text(reference)])))
  }

  /** Money is conserved: the total over all wallets is unchanged, except
      when the credit and then the restoring write both fail, which loses the amount. */
  lemma TransferMoney(db: Db, user: Option<AuthUser>, req: Request, reference: string, now: int, writes: Writes)
    ensures var r := PostSpec(db, user, req, reference, now, writes);
            Total(r.0.wallets) == Total(db.wallets) -
              (if user.Some? && Allowed(db, user.value.id, req) && writes.debit && !writes.credit && !writes.rollback
               then req.amount.value else 0)
  {
    if user.Some? && Allowed(db, user.value.id, req) && writes.debit {
      var sender := user.value.id;
      var recipient := Authorize(db, sender, req).value;
      var amount := req.amount.value;
      var debited := db.wallets[sender := db.wallets[sender] - amount];
      TotalUpdate(db.wallets, sender, db.wallets[sender] - amount);
      if writes.credit {
        TotalUpdate(debited, recipient, db.wallets[recipient] + amount);
      } else if writes.rollback {
        assert debited[sender := db.wallets[sender]] == db.wallets;
      }
    }
  }

  /** A completed transfer whose two rows land records them under one
      reference, with opposite amounts, each naming the other party. */
  lemma TransferRowsLinked(db: Db, user: AuthUser, req: Request, reference: string, now: int)
    requires Allowed(db, user.id, req)
    ensures var r := PostSpec(db, Some(user), req, reference, now, Writes(true, true, false, true, true));
            var recipient := Authorize(db, user.id, req).value;
            |r.0.txs| == |db.txs| + 2 &&
            var (out, into) := (r.0.txs[|db.txs|], r.0.txs[|db.txs| + 1]);
            out.userId == user.id && into.userId == recipient &&
            out.kind == into.kind == WalletTransfer && out.status == into.status == Success &&
            out.reference == into.reference == reference &&
            out.amount + into.amount == 0 && into.amount == req.amount.value > 0 &&
            out.metadata.value["recipient_id"] == Text(recipient) &&
            into.metadata.value["sender_id"] == Text(user.id)
  {
  }

  /** The balance a completed transfer reports is never negative. */
  lemma ReportedBalanceNonNegative(db: Db, user: AuthUser, req: Request, reference: string, now: int, writes: Writes)
    requires PostSpec(db, Some(user), req, reference, now, writes).1.status == 200
    ensures var body := PostSpec(db, Some(user), req, reference, now, writes).1.body;
            body.Json? && "balance" in body.fields && body.fields["balance"].Number? &&
            body.fields["balance"].number >= 0
  {
  }

  /** Sending to one's own e-mail is always refused. */
  lemma NoSelfTransfer(db: Db, user: AuthUser, amount: Option<int>)
    requires user.id in db.profiles
    ensures !Allowed(db, user.id, Request(amount, Some(db.profiles[user.id].email)))
  {
  }

  /** Only the sender's and the recipient's balances can change. */
  lemma TransferTouchesTwoWallets(db: Db, user: AuthUser, req: Request, reference: string, now: int,
                                  writes: Writes, other: UserId)
    requires other in db.wallets && other != user.id
    requires Allowed(db, user.id, req) ==> other != ProfileByEmail(db.profiles, req.recipientEmail.value).value
    ensures PostSpec(db, Some(user), req, reference, now, writes).0.wallets[other] == db.wallets[other]
  {
  }

  method Post(db: Store, user: Option<AuthUser>, req: Request, reference: string, now: int,
              writes: Writes) returns (resp: Response)
    requires db.Valid()
    modifies db
    ensures db.Valid()
    ensures (db.State(), resp) == PostSpec(old(db.State()), user, req, reference, now, writes)
  {
    if user.None? {
      return Unauthorized;
    }
    ghost var start := db.State();
    var sender := user.value.id;
    var authorized := Authorize(db.State(), sender, req);
    if authorized.Err? {
      return authorized.error;
    }
    var recipient := authorized.value;
    var amount := req.amount.value;
    var email := req.recipientEmail.value;
    // both balances are read before either write
    var senderBalance := db.wallets[sender];
    var recipientBalance := db.wallets[recipient];
    db.UpdateBalance(sender, senderBalance - amount, writes.debit);
    if !writes.debit {
      return DebitFailed;
    }
    ghost var debited := start.wallets[sender := senderBalance - amount];
    assert db.State() == start.(wallets := debited);
    db.UpdateBalance(recipient, recipientBalance + amount, writes.credit);
    if !writes.credit {
      db.UpdateBalance(sender, senderBalance, writes.rollback);
      return CreditFailed;
    }
    assert db.State() == start.(wallets := debited[recipient := recipientBalance + amount]);
    var _ := db.InsertTx(SenderRow(user.value, recipient, email, amount, reference, now), writes.senderRow);
    var _ := db.InsertTx(RecipientRow(user.value, recipient, amount, reference, now), writes.recipientRow);
    assert db.txs == start.txs + Rows(user.value, recipient, email, amount, reference, now, writes);
    resp := Response(200, Json(map["message" := Text("Transfer successful"),
                                   "balance" := Number(senderBalance - amount),
                                   "reference" := Text(reference)]));
  }
}
