/**
 * The rows of the MySQL tables that backend/server.js reads and writes
 * (`enderecos`, `pedidos`, `pedido_itens`, `pagamentos`, `usuarios`) and the
 * pure parts of its handlers: how a request field becomes a column value,
 * the status vocabulary, the gateway-status mapping, the single-statement
 * UPDATEs and the lookups that retrieval composes. Money is in cents.
 */
module Tables {
  import opened Common

  // ---------------------------------------------------------------------------
  // Request payloads and rows
  // ---------------------------------------------------------------------------

  /** The `endereco` object of an order request; an absent text field is "". */
  datatype AddressInput = AddressInput(
    rua: string, numero: string, complemento: string, bairro: string,
    cidade: string, estado: string, cep: string)

  datatype AddressRow = AddressRow(
    id: nat, usuarioId: Option<int>,
    rua: string, numero: string, complemento: Option<string>, bairro: string,
    cidade: string, estado: string, cep: string,
    principal: bool)

  /** One entry of the `itens` array of an order request. */
  datatype ItemInput = ItemInput(name: string, price: int, quantity: int)

  datatype ItemRow = ItemRow(
    id: nat, pedidoId: nat, produtoId: Option<nat>,
    nome: string, preco: int, quantidade: int)

  datatype OrderRow = OrderRow(
    id: nat, usuarioId: Option<int>, enderecoId: Option<nat>,
    metodoPag: string, total: int, observacao: Option<string>, status: string)

  datatype PaymentRow = PaymentRow(
    id: nat, pedidoId: int, gateway: string, gatewayId: string,
    status: string, valor: int)

  /** A user; `resetTokenExp` is the expiry instant in seconds. */
  datatype UserRow = UserRow(
    id: nat, nome: string, email: string, senhaHash: string,
    telefone: Option<string>, resetToken: Option<string>, resetTokenExp: Option<int>)

  function AddressKey(r: AddressRow): nat { r.id }
  function OrderKey(r: OrderRow): nat { r.id }
  function ItemKey(r: ItemRow): nat { r.id }
  function PaymentKey(r: PaymentRow): nat { r.id }
  function UserKey(r: UserRow): nat { r.id }

  /**
   * An AUTO_INCREMENT primary key: read from the newest row back, keys
   * strictly decrease and stay positive, and the newest is below `next`,
   * the value the counter hands out next.
   */
  ghost predicate Keyed<T>(rows: seq<T>, key: T -> nat, next: nat)
    decreases |rows|
  {
    if rows == [] then 0 < next
    else key(rows[|rows| - 1]) < next && Keyed(rows[..|rows| - 1], key, key(rows[|rows| - 1]))
  }

  /** The same property stated over all rows: positive keys below `next`, increasing in insertion order. */
  ghost predicate KeysIncreasing<T>(rows: seq<T>, key: T -> nat, next: nat) {
    && 0 < next
    && (forall i :: 0 <= i < |rows| ==> 0 < key(rows[i]) < next)
    && (forall i, j :: 0 <= i < j < |rows| ==> key(rows[i]) < key(rows[j]))
  }

  lemma {:induction false} KeyedIff<T>(rows: seq<T>, key: T -> nat, next: nat)
    ensures Keyed(rows, key, next) <==> KeysIncreasing(rows, key, next)
    decreases |rows|
  {
    if rows != [] {
      var init, last := rows[..|rows| - 1], rows[|rows| - 1];
      KeyedIff(init, key, key(last));
      assert forall i :: 0 <= i < |init| ==> rows[i] == init[i];
      if KeysIncreasing(rows, key, next) {
        assert KeysIncreasing(init, key, key(last)) by {
          assert 0 < key(last);
          forall i | 0 <= i < |init| ensures key(init[i]) < key(last) {
            assert key(rows[i]) < key(rows[|rows| - 1]);
          }
        }
      }
      if Keyed(rows, key, next) {
        assert KeysIncreasing(init, key, key(last));
      }
    }
  }

  lemma KeyedAppend<T>(rows: seq<T>, key: T -> nat, next: nat, r: T)
    requires Keyed(rows, key, next) && key(r) == next
    ensures Keyed(rows + [r], key, next + 1)
  {
    assert (rows + [r])[..|rows|] == rows;
  }

  /** Keyedness depends only on the keys. */
  lemma KeyedSameKeys<T>(rows: seq<T>, r: seq<T>, key: T -> nat, next: nat)
    requires Keyed(rows, key, next) && |r| == |rows|
    requires forall k :: 0 <= k < |rows| ==> key(r[k]) == key(rows[k])
    ensures Keyed(r, key, next)
  {
    KeyedIff(rows, key, next);
    KeyedIff(r, key, next);
  }

  lemma {:induction false} FilterIncreasing<T(!new)>(rows: seq<T>, key: T -> nat, next: nat, p: T -> bool)
    requires KeysIncreasing(rows, key, next)
    ensures KeysIncreasing(Filter(rows, p), key, next)
    decreases |rows|
  {
    if rows != [] {
      var rest := Filter(rows[1..], p);
      FilterIncreasing(rows[1..], key, next, p);
      if p(rows[0]) {
        var r := [rows[0]] + rest;
        forall i, j | 0 <= i < j < |r| ensures key(r[i]) < key(r[j]) {
          assert r[j] == rest[j - 1];
          if i == 0 {
            assert rest[j - 1] in rows[1..];
          } else {
            assert r[i] == rest[i - 1];
          }
        }
      }
    }
  }

  // ---------------------------------------------------------------------------
  // Order assembly (POST /api/pedidos)
  // ---------------------------------------------------------------------------

  /** `endereco && endereco.rua`: an address is saved only when it has a street. */
  predicate HasStreet(e: Option<AddressInput>) {
    e.Some? && e.value.rua != ""
  }

  /** `!itens || !itens.length` is false. */
  predicate HasItems(itens: Option<seq<ItemInput>>) {
    itens.Some? && |itens.value| > 0
  }

  /** The address row an order inserts: owner `usuario_id || null`, never primary. */
  function OrderAddress(id: nat, usuarioId: Option<int>, a: AddressInput): (r: AddressRow)
    ensures r.id == id && !r.principal && r.rua == a.rua
    ensures r.usuarioId.Some? <==> TruthyInt(usuarioId)
    ensures r.usuarioId.Some? ==> r.usuarioId == usuarioId
    ensures r.numero == a.numero && r.bairro == a.bairro && r.cidade == a.cidade && r.estado == a.estado && r.cep == a.cep
    ensures r.complemento.None? <==> a.complemento == ""
    ensures r.complemento.Some? ==> r.complemento.value == a.complemento
  {
    AddressRow(id, IntOrNull(usuarioId), a.rua, a.numero, StrOrNull(a.complemento),
               a.bairro, a.cidade, a.estado, a.cep, false)
  }

  /** The address rows an order submission inserts: one when the address has a street, none otherwise. */
  function SavedAddresses(id: nat, usuarioId: Option<int>, e: Option<AddressInput>): (r: seq<AddressRow>)
    ensures |r| == (if HasStreet(e) then 1 else 0)
    ensures HasStreet(e) ==> r == [OrderAddress(id, usuarioId, e.value)]
  {
    if HasStreet(e) then [OrderAddress(id, usuarioId, e.value)] else []
  }

  /**
   * The order row: owner `usuario_id || null`, the address key or null,
   * `total` as submitted (not recomputed from the items), `observacao || null`,
   * and the status the table gives a new row.
   */
  function OrderRecord(id: nat, usuarioId: Option<int>, enderecoId: Option<nat>, metodoPag: string,
                       total: int, observacao: string, status: string): (r: OrderRow)
    ensures r.id == id && r.enderecoId == enderecoId && r.total == total && r.status == status
    ensures r.usuarioId.Some? <==> TruthyInt(usuarioId)
    ensures r.usuarioId.Some? ==> r.usuarioId == usuarioId
    ensures r.metodoPag == metodoPag
    ensures r.observacao.None? <==> observacao == ""
    ensures r.observacao.Some? ==> r.observacao.value == observacao
  {
    OrderRow(id, IntOrNull(usuarioId), enderecoId, metodoPag, total, StrOrNull(observacao), status)
  }

  /** The line-item row for one cart entry: no product reference, name, price and quantity as sent. */
  function LineItem(id: nat, pedidoId: nat, it: ItemInput): ItemRow {
    ItemRow(id, pedidoId, None, it.name, it.price, it.quantity)
  }

  /**
   * The rows the item loop inserts for `items`, keys counting up from
   * `firstId`: one row per submitted item, in submission order; row `k`
   * belongs to the order, has key `firstId + k`, no product reference, and
   * the name, price and quantity of item `k` unchanged.
   */
  function ItemRows(firstId: nat, pedidoId: nat, items: seq<ItemInput>): (r: seq<ItemRow>)
    ensures |r| == |items|
    ensures forall k :: 0 <= k < |items| ==>
      && r[k].id == firstId + k && r[k].pedidoId == pedidoId && r[k].produtoId == None
      && r[k].nome == items[k].name && r[k].preco == items[k].price && r[k].quantidade == items[k].quantity
    decreases |items|
  {
    if items == [] then []
    else ItemRows(firstId, pedidoId, items[..|items| - 1])
         + [LineItem(firstId + |items| - 1, pedidoId, items[|items| - 1])]
  }

  lemma {:induction false} ItemRowsKeyed(rows: seq<ItemRow>, next: nat, pedidoId: nat, items: seq<ItemInput>)
    requires Keyed(rows, ItemKey, next)
    ensures Keyed(rows + ItemRows(next, pedidoId, items), ItemKey, next + |items|)
    decreases |items|
  {
    if items == [] {
      assert rows + ItemRows(next, pedidoId, items) == rows;
    } else {
      var init := items[..|items| - 1];
      ItemRowsKeyed(rows, next, pedidoId, init);
      var row := LineItem(next + |items| - 1, pedidoId, items[|items| - 1]);
      KeyedAppend(rows + ItemRows(next, pedidoId, init), ItemKey, next + |init|, row);
      assert rows + ItemRows(next, pedidoId, items) == rows + ItemRows(next, pedidoId, init) + [row];
    }
  }

  /** The number of INSERT statements a successful order submission runs. */
  function WriteCount(endereco: Option<AddressInput>, items: seq<ItemInput>): nat {
    (if HasStreet(endereco) then 1 else 0) + 1 + |items|
  }

  // ---------------------------------------------------------------------------
  // Order status (PATCH /api/admin/pedidos/:id/status)
  // ---------------------------------------------------------------------------

  /** The whitelist `validos`. */
  const ValidStatuses: seq<string> :=
    ["pendente", "confirmado", "em_preparo", "em_entrega", "entregue", "cancelado"]

  predicate IsValidStatus(s: string) {
    s in ValidStatuses
  }

  /**
   * `UPDATE pedidos SET status = ? WHERE id = ?`: every row with that key
   * now has the new status whatever it had before; the rows keep their keys
   * and places, and the rows with other keys are exactly as they were.
   */
  function SetStatus(rows: seq<OrderRow>, id: int, status: string): (r: seq<OrderRow>)
    ensures |r| == |rows|
    ensures forall k :: 0 <= k < |rows| ==> r[k].id == rows[k].id
    ensures forall o :: o in r && o.id == id ==> o.status == status
    ensures forall o :: o in rows && o.id != id <==> o in r && o.id != id
  {
    var r := seq(|rows|, k requires 0 <= k < |rows| =>
      if rows[k].id == id then rows[k].(status := status) else rows[k]);
    assert forall k :: 0 <= k < |rows| ==> rows[k] in rows && r[k] in r;
    r
  }

  lemma SetStatusKeyed(rows: seq<OrderRow>, next: nat, id: int, status: string)
    requires Keyed(rows, OrderKey, next)
    ensures Keyed(SetStatus(rows, id, status), OrderKey, next)
  {
    KeyedSameKeys(rows, SetStatus(rows, id, status), OrderKey, next);
  }

  // ---------------------------------------------------------------------------
  // Payment (POST /api/payment)
  // ---------------------------------------------------------------------------

  const Gateway: string := "stripe"

  /** The stored payment status: `aprovado` exactly when the intent `succeeded`. */
  function PaymentStatus(intentStatus: string): (s: string)
    ensures s == "aprovado" || s == "recusado"
    ensures s == "aprovado" <==> intentStatus == "succeeded"
  {
    if intentStatus == "succeeded" then "aprovado" else "recusado"
  }

  /** The status the response reports: `approved` for `aprovado`, `rejected` for anything else. */
  function ReplyStatus(stored: string): (s: string)
    ensures s == "approved" || s == "rejected"
    ensures s == "approved" <==> stored == "aprovado"
  {
    if stored == "aprovado" then "approved" else "rejected"
  }

  /** The client is told `approved` exactly when Stripe reported the intent `succeeded`. */
  lemma ReplyReportsIntent(intentStatus: string)
    ensures ReplyStatus(PaymentStatus(intentStatus)) == "approved" <==> intentStatus == "succeeded"
  {
  }

  // ---------------------------------------------------------------------------
  // Saved addresses (POST /api/usuarios/:id/enderecos)
  // ---------------------------------------------------------------------------

  /** The address row a user saves: owner from the path, flag `principal || false`, `complemento || null`. */
  function ProfileAddress(id: nat, usuarioId: int, a: AddressInput, principal: bool): (r: AddressRow)
    ensures r.id == id && r.usuarioId == Some(usuarioId) && r.principal == principal && r.rua == a.rua
    ensures r.numero == a.numero && r.bairro == a.bairro && r.cidade == a.cidade && r.estado == a.estado && r.cep == a.cep
    ensures r.complemento.None? <==> a.complemento == ""
    ensures r.complemento.Some? ==> r.complemento.value == a.complemento
  {
    AddressRow(id, Some(usuarioId), a.rua, a.numero, StrOrNull(a.complemento),
               a.bairro, a.cidade, a.estado, a.cep, principal)
  }

  /**
   * `UPDATE enderecos SET principal = FALSE WHERE usuario_id = ?`: none of
   * the user's addresses is primary afterwards; every row keeps its key and
   * place, and only the flag of the user's rows changes.
   */
  function ClearPrimary(rows: seq<AddressRow>, usuarioId: int): (r: seq<AddressRow>)
    ensures |r| == |rows|
    ensures forall k :: 0 <= k < |rows| ==> r[k].id == rows[k].id && r[k] == rows[k].(principal := r[k].principal)
    ensures forall a :: a in r && a.usuarioId == Some(usuarioId) ==> !a.principal
    ensures forall a :: a in rows && a.usuarioId != Some(usuarioId) <==> a in r && a.usuarioId != Some(usuarioId)
  {
    var r := seq(|rows|, k requires 0 <= k < |rows| =>
      if rows[k].usuarioId == Some(usuarioId) then rows[k].(principal := false) else rows[k]);
    assert forall k :: 0 <= k < |rows| ==> rows[k] in rows && r[k] in r;
    r
  }

  /** No user has two primary addresses. */
  ghost predicate AtMostOnePrimary(rows: seq<AddressRow>) {
    forall i, j :: 0 <= i < j < |rows| && rows[i].principal && rows[j].principal ==>
      rows[i].usuarioId != rows[j].usuarioId
  }

  /** Appending a row that is not primary keeps the rule. */
  lemma AppendNonPrimary(rows: seq<AddressRow>, r: AddressRow)
    requires AtMostOnePrimary(rows) && !r.principal
    ensures AtMostOnePrimary(rows + [r])
  {
  }

  /** Clearing a user's flags keeps the rule: it only ever turns flags off. */
  lemma ClearPrimaryEffect(rows: seq<AddressRow>, usuarioId: int)
    requires AtMostOnePrimary(rows)
    ensures AtMostOnePrimary(ClearPrimary(rows, usuarioId))
  {
  }

  /**
   * Clearing first is what makes the rule hold: after clearing the user's
   * flags, any address of that user may be appended, primary or not.
   */
  lemma ClearThenAppend(rows: seq<AddressRow>, usuarioId: int, r: AddressRow)
    requires AtMostOnePrimary(rows) && r.usuarioId == Some(usuarioId)
    ensures AtMostOnePrimary(ClearPrimary(rows, usuarioId) + [r])
  {
    var c := ClearPrimary(rows, usuarioId);
    ClearPrimaryEffect(rows, usuarioId);
    var s := c + [r];
    forall i, j | 0 <= i < j < |s| && s[i].principal && s[j].principal
      ensures s[i].usuarioId != s[j].usuarioId
    {
      if j == |c| {
        assert s[i] == c[i] && c[i] in c;
      }
    }
  }

  lemma ClearPrimaryKeyed(rows: seq<AddressRow>, next: nat, usuarioId: int)
    requires Keyed(rows, AddressKey, next)
    ensures Keyed(ClearPrimary(rows, usuarioId), AddressKey, next)
  {
    KeyedSameKeys(rows, ClearPrimary(rows, usuarioId), AddressKey, next);
  }

  // ---------------------------------------------------------------------------
  // Retrieval (GET /api/pedidos/:id): each query as a lookup
  // ---------------------------------------------------------------------------

  /** The `WHERE pedido_id = ?` predicate on line items. */
  function ForOrder(pedidoId: int): ItemRow -> bool {
    (r: ItemRow) => r.pedidoId == pedidoId
  }

  /** `SELECT * FROM pedido_itens WHERE pedido_id = ?` */
  function ItemsOf(rows: seq<ItemRow>, pedidoId: int): (r: seq<ItemRow>)
    ensures forall x :: x in r <==> x in rows && x.pedidoId == pedidoId
    ensures SubseqOf(r, rows)
  {
    FilterIsSubseq(rows, ForOrder(pedidoId));
    Filter(rows, ForOrder(pedidoId))
  }

  /** `SELECT * FROM enderecos WHERE id = ?` behind `if (pedido.endereco_id)`, and `end[0] || null`. */
  function AddressOf(rows: seq<AddressRow>, ref: Option<nat>): (r: Option<AddressRow>)
    ensures r.Some? <==> ref.Some? && ref.value != 0 && exists k :: 0 <= k < |rows| && rows[k].id == ref.value
    ensures r.Some? ==> r.value in rows && r.value.id == ref.value
  {
    if ref.None? || ref.value == 0 then None
    else match FindFirst(rows, (a: AddressRow) => a.id == ref.value)
      case None => None
      case Some(k) => Some(rows[k])
  }

  /** `SELECT * FROM pagamentos WHERE pedido_id = ? LIMIT 1`, first in insertion order, or null. */
  function FirstPaymentOf(rows: seq<PaymentRow>, pedidoId: int): (r: Option<PaymentRow>)
    ensures r.None? <==> forall k :: 0 <= k < |rows| ==> rows[k].pedidoId != pedidoId
    ensures r.Some? ==> exists k :: (0 <= k < |rows| && rows[k] == r.value && r.value.pedidoId == pedidoId
      && forall j :: 0 <= j < k ==> rows[j].pedidoId != pedidoId)
  {
    match FindFirst(rows, (p: PaymentRow) => p.pedidoId == pedidoId)
    case None => None
    case Some(k) => Some(rows[k])
  }

  /** The `cliente_*` columns of `LEFT JOIN usuarios u ON p.usuario_id = u.id`. */
  datatype Contact = Contact(nome: string, email: string, telefone: Option<string>)

  function ContactOf(users: seq<UserRow>, usuarioId: Option<int>): (r: Option<Contact>)
    ensures r.Some? <==> usuarioId.Some? && exists k :: 0 <= k < |users| && users[k].id == usuarioId.value
    ensures r.Some? ==> exists k :: (0 <= k < |users| && users[k].id == usuarioId.value
      && r.value == Contact(users[k].nome, users[k].email, users[k].telefone))
  {
    if usuarioId.None? then None
    else match FindFirst(users, (u: UserRow) => u.id == usuarioId.value)
      case None => None
      case Some(k) => Some(Contact(users[k].nome, users[k].email, users[k].telefone))
  }

  // ---------------------------------------------------------------------------
  // Users: registration and password reset
  // ---------------------------------------------------------------------------

  /** Registration refuses an e-mail that is already present, so e-mails never repeat. */
  ghost predicate DistinctEmails(users: seq<UserRow>) {
    forall i, j :: 0 <= i < j < |users| ==> users[i].email != users[j].email
  }

  /** `SELECT id FROM usuarios WHERE email = ?` finds a row. */
  predicate EmailTaken(users: seq<UserRow>, email: string) {
    exists k :: 0 <= k < |users| && users[k].email == email
  }

  function WithEmail(email: string): UserRow -> bool {
    (u: UserRow) => u.email == email
  }

  /** The user `SELECT ... WHERE email = ?` finds first. */
  function UserWithEmail(users: seq<UserRow>, email: string): (u: UserRow)
    requires EmailTaken(users, email)
    ensures u in users && u.email == email
  {
    users[FindFirst(users, WithEmail(email)).value]
  }

  /**
   * `UPDATE usuarios SET reset_token = ?, reset_token_exp = ? WHERE id = ?`:
   * the user with that key holds the token and its expiry; keys, e-mails and
   * password hashes stay, and no other user changes.
   */
  function StoreResetToken(users: seq<UserRow>, id: int, token: string, exp: int): (r: seq<UserRow>)
    ensures |r| == |users|
    ensures forall k :: 0 <= k < |users| ==>
      r[k].id == users[k].id && r[k].email == users[k].email && r[k].senhaHash == users[k].senhaHash
    ensures forall k :: 0 <= k < |users| && users[k].id == id ==>
      r[k].resetToken == Some(token) && r[k].resetTokenExp == Some(exp)
    ensures forall k :: 0 <= k < |users| && users[k].id != id ==> r[k] == users[k]
  {
    seq(|users|, k requires 0 <= k < |users| =>
      if users[k].id == id then users[k].(resetToken := Some(token), resetTokenExp := Some(exp)) else users[k])
  }

  /**
   * `UPDATE usuarios SET senha_hash = ?, reset_token = NULL, reset_token_exp = NULL WHERE id = ?`:
   * the user with that key has the new hash and no token; keys and e-mails
   * stay, and no other user changes.
   */
  function ConsumeResetToken(users: seq<UserRow>, id: int, hash: string): (r: seq<UserRow>)
    ensures |r| == |users|
    ensures forall k :: 0 <= k < |users| ==> r[k].id == users[k].id && r[k].email == users[k].email
    ensures forall k :: 0 <= k < |users| && users[k].id == id ==>
      r[k].senhaHash == hash && r[k].resetToken.None? && r[k].resetTokenExp.None?
    ensures forall k :: 0 <= k < |users| && users[k].id != id ==> r[k] == users[k]
  {
    seq(|users|, k requires 0 <= k < |users| =>
      if users[k].id == id then users[k].(senhaHash := hash, resetToken := None, resetTokenExp := None) else users[k])
  }

  /** The row condition `id = ? AND reset_token = ? AND reset_token_exp > NOW()`. */
  predicate ResetMatches(u: UserRow, id: int, token: string, now: int) {
    u.id == id && u.resetToken == Some(token) && u.resetTokenExp.Some? && u.resetTokenExp.value > now
  }

  predicate ResetTokenValid(users: seq<UserRow>, id: int, token: string, now: int) {
    exists k :: 0 <= k < |users| && ResetMatches(users[k], id, token, now)
  }

  /** Once a reset has consumed the token, the same token no longer matches, at any time. */
  lemma ResetTokenSingleUse(users: seq<UserRow>, id: int, hash: string, token: string, now: int)
    ensures !ResetTokenValid(ConsumeResetToken(users, id, hash), id, token, now)
  {
  }

  /** Right after it is stored, a token matches until its expiry instant. */
  lemma StoredTokenMatches(users: seq<UserRow>, k: nat, token: string, exp: int, now: int)
    requires k < |users| && now < exp
    ensures ResetTokenValid(StoreResetToken(users, users[k].id, token, exp), users[k].id, token, now)
  {
    var r := StoreResetToken(users, users[k].id, token, exp);
    assert ResetMatches(r[k], users[k].id, token, now);
  }

  lemma UpdateUsersKeyed(users: seq<UserRow>, next: nat, r: seq<UserRow>)
    requires Keyed(users, UserKey, next) && DistinctEmails(users) && |r| == |users|
    requires forall k :: 0 <= k < |users| ==> r[k].id == users[k].id && r[k].email == users[k].email
    ensures Keyed(r, UserKey, next) && DistinctEmails(r)
  {
    KeyedSameKeys(users, r, UserKey, next);
  }
}
