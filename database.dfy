/** The three tables of the store (`src/types/database.ts`) and the store
    operations the route handlers issue against them. A `Db` is a snapshot of
    the tables; `Store` holds the tables that the handlers update in place.
    Every write takes a flag saying whether the store accepted it, because the
    handlers react to a rejected write (or, for some writes, ignore it). */
module Database {
  import opened Base

  type UserId = string

  datatype TxType = Airtime | Data | Electricity | Cable | Education | WalletFund | WalletTransfer {
    /** The value stored in the `type` column. */
    function Name(): string
    {
      match this
      case Airtime => "airtime"
      case Data => "data"
      case Electricity => "electricity"
      case Cable => "cable"
      case Education => "education"
      case WalletFund => "wallet_fund"
      case WalletTransfer => "wallet_transfer"
    }
  }

  datatype TxStatus = Pending | Success | Failed {
    function Name(): string
    {
      match this
      case Pending => "pending"
      case Success => "success"
      case Failed => "failed"
    }
  }

  /** A `transactions` row. Two handlers write their details to a `meta`
      member instead of `metadata`; the row keeps the two apart. */
  datatype Tx = Tx(
    userId: UserId,
    kind: TxType,
    amount: int,
    status: TxStatus,
    reference: string,
    description: Option<string>,
    metadata: Option<Fields>,
    meta: Option<Fields>,
    createdAt: int)

  /** A `profiles` row, keyed by the user id. */
  datatype Profile = Profile(email: string, fullName: Option<string>, phone: Option<string>)

  /** The signed-in user of a request, as the identity provider reports it. */
  datatype AuthUser = AuthUser(id: UserId, email: string)

  datatype Pagination = Pagination(page: int, limit: int, total: nat, totalPages: nat)

  datatype Body =
    | Error(message: string)
    | Json(fields: Fields)
    | Listing(transactions: seq<Tx>, pagination: Pagination)

  /** An HTTP response: status code and JSON body. */
  datatype Response = Response(status: nat, body: Body)

  const Unauthorized := Response(401, Error("Unauthorized"))

  /** A snapshot of the three tables: the balance of each user's wallet, the
      profiles, and the ledger of transactions in insertion order. */
  datatype Db = Db(wallets: map<UserId, int>, profiles: map<UserId, Profile>, txs: seq<Tx>)

  /** No wallet holds a negative balance. */
  predicate Solvent(wallets: map<UserId, int>)
  {
    forall u :: u in wallets ==> wallets[u] >= 0
  }

  /** The users whose profile carries `email`. */
  function EmailOwners(profiles: map<UserId, Profile>, email: string): (r: set<UserId>)
    ensures forall id :: id in r <==> id in profiles && profiles[id].email == email
  {
    set id | id in profiles && profiles[id].email == email
  }

  function The(s: set<UserId>): (x: UserId)
    requires |s| == 1
    ensures s == {x}
  {
    var x :| x in s;
    assert |s - {x}| == 0;
    x
  }

  /** `from('profiles').select('id, email').eq('email', email).single()`: the
      one profile with that e-mail, or an error when there is none or more than one. */
  function ProfileByEmail(profiles: map<UserId, Profile>, email: string): (r: Option<UserId>)
    ensures r.Some? <==> |EmailOwners(profiles, email)| == 1
    ensures r.Some? ==> r.value in profiles && profiles[r.value].email == email
    ensures r.Some? ==> forall id :: id in profiles && profiles[id].email == email ==> id == r.value
  {
    var owners := EmailOwners(profiles, email);
    if |owners| == 1 then Some(The(owners)) else None
  }

  ghost function PickUser(wallets: map<UserId, int>): (u: UserId)
    requires wallets != map[]
    ensures u in wallets
  {
    var u :| u in wallets; u
  }

  /** The money held in all wallets together. */
  ghost function Total(wallets: map<UserId, int>): int
    decreases |wallets|
  {
    if wallets == map[] then 0
    else
      var u := PickUser(wallets);
      wallets[u] + Total(wallets - {u})
  }

  /** Any wallet can be taken out of the total first. */
  lemma {:induction false} TotalWithout(wallets: map<UserId, int>, u: UserId)
    requires u in wallets
    ensures Total(wallets) == wallets[u] + Total(wallets - {u})
    decreases |wallets|
  {
    var v := PickUser(wallets);
    if v != u {
      assert |wallets - {v}| == |wallets| - 1;
      TotalWithout(wallets - {v}, u);
      TotalWithout(wallets - {u}, v);
      assert wallets - {v} - {u} == wallets - {u} - {v};
    }
  }

  /** Setting one existing wallet's balance changes the total by the difference. */
  lemma TotalUpdate(wallets: map<UserId, int>, u: UserId, balance: int)
    requires u in wallets
    ensures Total(wallets[u := balance]) == Total(wallets) - wallets[u] + balance
  {
    TotalWithout(wallets, u);
    TotalWithout(wallets[u := balance], u);
    assert wallets[u := balance] - {u} == wallets - {u};
  }

  /** Adding a wallet adds its balance to the total. */
  lemma TotalInsert(wallets: map<UserId, int>, u: UserId, balance: int)
    requires u !in wallets
    ensures Total(wallets[u := balance]) == Total(wallets) + balance
  {
    TotalWithout(wallets[u := balance], u);
    assert wallets[u := balance] - {u} == wallets;
  }

  class Store {
    var wallets: map<UserId, int>
    var profiles: map<UserId, Profile>
    var txs: seq<Tx>

    function State(): Db
      reads this
    {
      Db(wallets, profiles, txs)
    }

    ghost predicate Valid()
      reads this
    {
      Solvent(wallets)
    }

    constructor ()
      ensures Valid()
      ensures State() == Db(map[], map[], [])
    {
      wallets, profiles, txs := map[], map[], [];
    }

    /** `from('transactions').insert(row).select().single()`: the new row's
        position in the ledger, or None when the store rejects the insert. */
    method InsertTx(row: Tx, ok: bool) returns (id: Option<nat>)
      modifies this
      ensures State() == if ok then old(State()).(txs := old(txs) + [row]) else old(State())
      ensures id == if ok then Some(|old(txs)|) else None
    {
      if ok {
        id := Some(|txs|);
        txs := txs + [row];
      } else {
        id := None;
      }
    }

    /** `from('transactions').update(...).eq('id', id)`, given the row as the update leaves it. */
    method UpdateTx(id: nat, row: Tx, ok: bool)
      requires id < |txs|
      modifies this
      ensures State() == if ok then old(State()).(txs := old(txs)[id := row]) else old(State())
    {
      if ok {
        txs := txs[id := row];
      }
    }

    /** `from('wallets').update({ balance }).eq('user_id', user)`: matches no
        row, and changes nothing, when the user has no wallet. */
    method UpdateBalance(user: UserId, balance: int, ok: bool)
      modifies this
      ensures State() == if ok && user in old(wallets)
                         then old(State()).(wallets := old(wallets)[user := balance])
                         else old(State())
    {
      if ok && user in wallets {
        wallets := wallets[user := balance];
      }
    }

    /** `from('wallets').insert({ user_id, balance })`: a second wallet for the
        same user is refused, as is any insert the store rejects. */
    method InsertWallet(user: UserId, balance: int, ok: bool) returns (created: bool)
      modifies this
      ensures created == (ok && user !in old(wallets))
      ensures State() == if created then old(State()).(wallets := old(wallets)[user := balance]) else old(State())
    {
      created := ok && user !in wallets;
      if created {
        wallets := wallets[user := balance];
      }
    }

    /** `from('profiles').insert({ id, ... })`: the id is the table's key. */
    method InsertProfile(id: UserId, profile: Profile, ok: bool) returns (created: bool)
      modifies this
      ensures created == (ok && id !in old(profiles))
      ensures State() == if created then old(State()).(profiles := old(profiles)[id := profile]) else old(State())
    {
      created := ok && id !in profiles;
      if created {
        profiles := profiles[id := profile];
      }
    }
  }
}
