/**
 * The order and payment handlers of backend/server.js over an abstract
 * MySQL store. Each table is a sequence of rows in insertion order with its
 * AUTO_INCREMENT counter; each handler is a method of `Store` that either
 * commits its writes or, where the code rolls back, leaves the store as it
 * was. A failing SQL statement is an input: `fault == Some(n)` makes the
 * request's n-th write statement (counting from 0) throw.
 */
module Server {
  import opened Common
  import opened Tables

  datatype Error =
    | BadRequest(message: string)   // 400
    | Unauthorized(message: string) // 401
    | NotFound(message: string)     // 404
    | Conflict(message: string)     // 409
    | ServerError                   // 500, with the driver's message

  function ErrorCode(e: Error): nat {
    match e
    case BadRequest(_) => 400
    case Unauthorized(_) => 401
    case NotFound(_) => 404
    case Conflict(_) => 409
    case ServerError => 500
  }

  /** What a handler sends: a status code with a JSON body, or an `{ error }` reply. */
  datatype Response<T> = Success(code: nat, body: T) | Failure(error: Error)

  const NoToken: string := "Token n\U{00E3}o fornecido."
  const InvalidToken: string := "Token inv\U{00E1}lido."
  const InvalidStatus: string := "Status inv\U{00E1}lido."
  const NoItems: string := "Pedido sem itens."
  const OrderNotFound: string := "Pedido n\U{00E3}o encontrado."
  const NoCardToken: string := "Token do cart\U{00E3}o n\U{00E3}o recebido."
  const MissingFields: string := "Nome, email e senha s\U{00E3}o obrigat\U{00F3}rios."
  const ShortPassword: string := "Senha deve ter no m\U{00ED}nimo 6 caracteres."
  const EmailInUse: string := "Email j\U{00E1} cadastrado."
  const MissingEmail: string := "E-mail obrigat\U{00F3}rio."
  const MissingReset: string := "Token e nova senha obrigat\U{00F3}rios."
  const ExpiredToken: string := "Token inv\U{00E1}lido ou expirado."
  const UsedToken: string := "Token inv\U{00E1}lido ou j\U{00E1} utilizado."

  /** The index of the write statement that throws, if any. */
  type Fault = Option<nat>

  predicate Throws(fault: Fault, n: nat) {
    fault == Some(n)
  }

  /** One of the first `n` write statements throws. */
  predicate FailsWithin(fault: Fault, n: nat) {
    fault.Some? && fault.value < n
  }

  /** How `jwt.verify` treats the bearer token of an admin request. */
  datatype AdminAuth = MissingToken | RejectedToken | Verified

  /** The `authAdmin` middleware: the error it answers with, if any. */
  function Authorize(auth: AdminAuth): (r: Option<Error>)
    ensures r.None? <==> auth == Verified
    ensures r.Some? ==> ErrorCode(r.value) == 401
  {
    match auth
    case MissingToken => Some(Unauthorized(NoToken))
    case RejectedToken => Some(Unauthorized(InvalidToken))
    case Verified => None
  }

  /** What `stripe.paymentIntents.create` did: returned an intent, or threw. */
  datatype GatewayOutcome = Completed(intentId: string, intentStatus: string) | Threw

  /** The JSON reply of a payment: `{ status, id }`. */
  datatype PaymentReply = PaymentReply(status: string, id: string)

  /** The JSON reply of a registration: `{ id, nome, email }`. */
  datatype NewUser = NewUser(id: nat, nome: string, email: string)

  /** The payload `jwt.verify` returns for a reset token. */
  datatype ResetPayload = ResetPayload(id: int, tipo: string)

  // ---------------------------------------------------------------------------
  // Cross-table consistency
  // ---------------------------------------------------------------------------

  predicate OrderExists(pedidos: seq<OrderRow>, id: int) {
    exists j :: 0 <= j < |pedidos| && pedidos[j].id == id
  }

  predicate AddressExists(enderecos: seq<AddressRow>, id: int) {
    exists j :: 0 <= j < |enderecos| && enderecos[j].id == id
  }

  /** Every line item belongs to an order that exists. */
  ghost predicate ItemsBelong(itens: seq<ItemRow>, pedidos: seq<OrderRow>)
    decreases |itens|
  {
    itens != [] ==>
      OrderExists(pedidos, itens[|itens| - 1].pedidoId) && ItemsBelong(itens[..|itens| - 1], pedidos)
  }

  lemma {:induction false} ItemsBelongIff(itens: seq<ItemRow>, pedidos: seq<OrderRow>)
    ensures ItemsBelong(itens, pedidos) <==> forall k :: 0 <= k < |itens| ==> OrderExists(pedidos, itens[k].pedidoId)
    decreases |itens|
  {
    if itens != [] {
      var init := itens[..|itens| - 1];
      ItemsBelongIff(init, pedidos);
      assert forall k :: 0 <= k < |init| ==> init[k] == itens[k];
    }
  }

  /** Every address an order refers to exists. */
  ghost predicate AddressesExist(pedidos: seq<OrderRow>, enderecos: seq<AddressRow>)
    decreases |pedidos|
  {
    pedidos != [] ==>
      && (pedidos[|pedidos| - 1].enderecoId.Some? ==>
            AddressExists(enderecos, pedidos[|pedidos| - 1].enderecoId.value))
      && AddressesExist(pedidos[..|pedidos| - 1], enderecos)
  }

  lemma {:induction false} AddressesExistIff(pedidos: seq<OrderRow>, enderecos: seq<AddressRow>)
    ensures AddressesExist(pedidos, enderecos) <==>
      forall k :: 0 <= k < |pedidos| && pedidos[k].enderecoId.Some? ==>
        AddressExists(enderecos, pedidos[k].enderecoId.value)
    decreases |pedidos|
  {
    if pedidos != [] {
      var init := pedidos[..|pedidos| - 1];
      AddressesExistIff(init, enderecos);
      assert forall k :: 0 <= k < |init| ==> init[k] == pedidos[k];
    }
  }

  lemma {:induction false} ItemsBelongAppend(itens: seq<ItemRow>, pedidos: seq<OrderRow>, extra: seq<ItemRow>, o: OrderRow)
    requires ItemsBelong(itens, pedidos)
    requires forall k :: 0 <= k < |extra| ==> extra[k].pedidoId == o.id
    ensures ItemsBelong(itens + extra, pedidos + [o])
  {
    ItemsBelongIff(itens, pedidos);
    var p := pedidos + [o];
    var s := itens + extra;
    assert p[|pedidos|] == o;
    forall k | 0 <= k < |s| ensures OrderExists(p, s[k].pedidoId) {
      if k < |itens| {
        var j :| 0 <= j < |pedidos| && pedidos[j].id == itens[k].pedidoId;
        assert p[j] == pedidos[j];
      } else {
        assert s[k] == extra[k - |itens|];
      }
    }
    ItemsBelongIff(s, p);
  }

  lemma AddressesExistAppend(pedidos: seq<OrderRow>, enderecos: seq<AddressRow>, extra: seq<AddressRow>, o: OrderRow)
    requires AddressesExist(pedidos, enderecos)
    requires o.enderecoId.Some? ==> exists j :: 0 <= j < |extra| && extra[j].id == o.enderecoId.value
    ensures AddressesExist(pedidos + [o], enderecos + extra)
  {
    AddressesExistIff(pedidos, enderecos);
    AddressesExistIff(pedidos + [o], enderecos + extra);
    var p := pedidos + [o];
    var e := enderecos + extra;
    forall k | 0 <= k < |p| && p[k].enderecoId.Some? ensures AddressExists(e, p[k].enderecoId.value) {
      if k < |pedidos| {
        assert p[k] == pedidos[k];
        var j :| 0 <= j < |enderecos| && enderecos[j].id == pedidos[k].enderecoId.value;
        assert e[j] == enderecos[j];
      } else {
        var j :| 0 <= j < |extra| && extra[j].id == o.enderecoId.value;
        assert e[|enderecos| + j] == extra[j];
      }
    }
  }

  lemma AddressesExistExtend(pedidos: seq<OrderRow>, enderecos: seq<AddressRow>, a: AddressRow)
    requires AddressesExist(pedidos, enderecos)
    ensures AddressesExist(pedidos, enderecos + [a])
  {
    AddressesExistIff(pedidos, enderecos);
    AddressesExistIff(pedidos, enderecos + [a]);
    forall k | 0 <= k < |pedidos| && pedidos[k].enderecoId.Some?
      ensures AddressExists(enderecos + [a], pedidos[k].enderecoId.value)
    {
      var j :| 0 <= j < |enderecos| && enderecos[j].id == pedidos[k].enderecoId.value;
      assert (enderecos + [a])[j] == enderecos[j];
    }
  }

  /** A status update keeps every order's key and address reference, so references stay valid. */
  lemma SetStatusKeepsReferences(pedidos: seq<OrderRow>, itens: seq<ItemRow>, enderecos: seq<AddressRow>, id: int, status: string)
    requires ItemsBelong(itens, pedidos) && AddressesExist(pedidos, enderecos)
    ensures ItemsBelong(itens, SetStatus(pedidos, id, status))
    ensures AddressesExist(SetStatus(pedidos, id, status), enderecos)
  {
    ItemsBelongIff(itens, pedidos);
    ItemsBelongIff(itens, SetStatus(pedidos, id, status));
    AddressesExistIff(pedidos, enderecos);
    AddressesExistIff(SetStatus(pedidos, id, status), enderecos);
    var p := SetStatus(pedidos, id, status);
    forall k | 0 <= k < |itens| ensures OrderExists(p, itens[k].pedidoId) {
      var j :| 0 <= j < |pedidos| && pedidos[j].id == itens[k].pedidoId;
      assert p[j].id == pedidos[j].id;
    }
    assert forall k :: 0 <= k < |pedidos| ==> p[k].enderecoId == pedidos[k].enderecoId;
  }

  /** Clearing primary flags keeps every address key, so order references stay valid. */
  lemma ClearPrimaryKeepsReferences(pedidos: seq<OrderRow>, enderecos: seq<AddressRow>, usuarioId: int)
    requires AddressesExist(pedidos, enderecos)
    ensures AddressesExist(pedidos, ClearPrimary(enderecos, usuarioId))
  {
    AddressesExistIff(pedidos, enderecos);
    AddressesExistIff(pedidos, ClearPrimary(enderecos, usuarioId));
    var e := ClearPrimary(enderecos, usuarioId);
    forall k | 0 <= k < |pedidos| && pedidos[k].enderecoId.Some?
      ensures AddressExists(e, pedidos[k].enderecoId.value)
    {
      var j :| 0 <= j < |enderecos| && enderecos[j].id == pedidos[k].enderecoId.value;
      assert e[j].id == enderecos[j].id;
    }
  }

  // ---------------------------------------------------------------------------
  // The database
  // ---------------------------------------------------------------------------

  /** The five tables, each in insertion order, with their AUTO_INCREMENT counters. */
  datatype Db = Db(
    enderecos: seq<AddressRow>, pedidos: seq<OrderRow>, itens: seq<ItemRow>,
    pagamentos: seq<PaymentRow>, usuarios: seq<UserRow>,
    nextEndereco: nat, nextPedido: nat, nextItem: nat, nextPagamento: nat, nextUsuario: nat)

  /** A newly created schema: empty tables, every counter at 1. */
  const EmptyDb: Db := Db([], [], [], [], [], 1, 1, 1, 1, 1)

  /** The invariant the handlers keep. */
  ghost predicate Consistent(db: Db) {
    && Keyed(db.enderecos, AddressKey, db.nextEndereco)
    && Keyed(db.pedidos, OrderKey, db.nextPedido)
    && Keyed(db.itens, ItemKey, db.nextItem)
    && Keyed(db.pagamentos, PaymentKey, db.nextPagamento)
    && Keyed(db.usuarios, UserKey, db.nextUsuario)
    && AtMostOnePrimary(db.enderecos)
    && DistinctEmails(db.usuarios)
    && ItemsBelong(db.itens, db.pedidos)
    && AddressesExist(db.pedidos, db.enderecos)
  }

  // ---------------------------------------------------------------------------
  // Order submission (POST /api/pedidos)
  // ---------------------------------------------------------------------------

  /** The body of an order submission; a missing `itens` or `endereco` is `None`. */
  datatype OrderRequest = OrderRequest(
    usuarioId: Option<int>, metodoPag: string, total: int, observacao: string,
    itens: Option<seq<ItemInput>>, endereco: Option<AddressInput>)

  /** The row a submission inserts into `pedidos`, with the table's default `status`. */
  function NewOrder(db: Db, req: OrderRequest, status: string): OrderRow {
    OrderRecord(db.nextPedido, req.usuarioId, if HasStreet(req.endereco) then Some(db.nextEndereco) else None,
                req.metodoPag, req.total, req.observacao, status)
  }

  /**
   * The database once a submission commits: its address (if any), its order
   * and its items appended.
   */
  function PlaceOrder(db: Db, req: OrderRequest, status: string): Db
    requires req.itens.Some?
  {
    var saved := SavedAddresses(db.nextEndereco, req.usuarioId, req.endereco);
    db.(enderecos := db.enderecos + saved, nextEndereco := db.nextEndereco + |saved|,
        pedidos := db.pedidos + [NewOrder(db, req, status)], nextPedido := db.nextPedido + 1,
        itens := db.itens + ItemRows(db.nextItem, db.nextPedido, req.itens.value),
        nextItem := db.nextItem + |req.itens.value|)
  }

  /**
   * A submission only appends: every existing row stays in its place,
   * payments and users are untouched, and each table and its counter grow
   * by the rows the handler inserts.
   */
  lemma PlaceOrderAppends(db: Db, req: OrderRequest, status: string)
    requires req.itens.Some?
    ensures var r := PlaceOrder(db, req, status);
      && r.pagamentos == db.pagamentos && r.nextPagamento == db.nextPagamento
      && r.usuarios == db.usuarios && r.nextUsuario == db.nextUsuario
      && |r.enderecos| == |db.enderecos| + (if HasStreet(req.endereco) then 1 else 0)
      && |r.pedidos| == |db.pedidos| + 1 && |r.itens| == |db.itens| + |req.itens.value|
      && r.enderecos[..|db.enderecos|] == db.enderecos && r.pedidos[..|db.pedidos|] == db.pedidos
      && r.itens[..|db.itens|] == db.itens
      && r.nextEndereco - db.nextEndereco == |r.enderecos| - |db.enderecos|
      && r.nextPedido - db.nextPedido == |r.pedidos| - |db.pedidos|
      && r.nextItem - db.nextItem == |r.itens| - |db.itens|
  {
  }

  /** Committing a submission keeps the database consistent. */
  lemma PlaceOrderConsistent(db: Db, req: OrderRequest, status: string)
    requires Consistent(db) && req.itens.Some?
    ensures Consistent(PlaceOrder(db, req, status))
  {
    var items := req.itens.value;
    var saved := SavedAddresses(db.nextEndereco, req.usuarioId, req.endereco);
    var o := NewOrder(db, req, status);
    if saved != [] {
      KeyedAppend(db.enderecos, AddressKey, db.nextEndereco, saved[0]);
      AppendNonPrimary(db.enderecos, saved[0]);
      assert saved[0].id == o.enderecoId.value;
    } else {
      assert db.enderecos + saved == db.enderecos;
    }
    KeyedAppend(db.pedidos, OrderKey, db.nextPedido, o);
    ItemRowsKeyed(db.itens, db.nextItem, db.nextPedido, items);
    ItemsBelongAppend(db.itens, db.pedidos, ItemRows(db.nextItem, db.nextPedido, items), o);
    AddressesExistAppend(db.pedidos, db.enderecos, saved, o);
  }

  // ---------------------------------------------------------------------------
  // Retrieval (GET /api/pedidos/:id and GET /api/pedidos/usuario/:id)
  // ---------------------------------------------------------------------------

  /** The order object the handler sends: the row, the user's contact, items, address and payment. */
  datatype OrderDetail = OrderDetail(
    order: OrderRow, cliente: Option<Contact>, itens: seq<ItemRow>,
    endereco: Option<AddressRow>, pagamento: Option<PaymentRow>)

  function OrderWithId(id: int): OrderRow -> bool {
    (o: OrderRow) => o.id == id
  }

  /** The order with key `id` composed with what the follow-up queries find, or nothing. */
  function OrderDetailOf(db: Db, id: int): (r: Option<OrderDetail>)
    ensures r.None? <==> !OrderExists(db.pedidos, id)
    ensures r.Some? ==> r.value.order in db.pedidos && r.value.order.id == id
    ensures r.Some? ==> forall x :: x in r.value.itens <==> x in db.itens && x.pedidoId == id
    ensures r.Some? ==> SubseqOf(r.value.itens, db.itens)
    ensures r.Some? ==> r.value.itens == ItemsOf(db.itens, id)
    ensures r.Some? ==> r.value.endereco == AddressOf(db.enderecos, r.value.order.enderecoId)
    ensures r.Some? ==> r.value.pagamento == FirstPaymentOf(db.pagamentos, id)
    ensures r.Some? ==> r.value.cliente == ContactOf(db.usuarios, r.value.order.usuarioId)
  {
    match FindFirst(db.pedidos, OrderWithId(id))
    case None => None
    case Some(k) =>
      var o := db.pedidos[k];
      Some(OrderDetail(o, ContactOf(db.usuarios, o.usuarioId), ItemsOf(db.itens, id),
                       AddressOf(db.enderecos, o.enderecoId), FirstPaymentOf(db.pagamentos, id)))
  }

  /**
   * In a consistent database every order that refers to an address gets
   * that address back, and one with no reference gets none: `endereco` is
   * null exactly when `endereco_id` is.
   */
  lemma DetailAddressResolves(db: Db, id: int)
    requires Consistent(db) && OrderExists(db.pedidos, id)
    ensures var d := OrderDetailOf(db, id).value;
      d.endereco.Some? <==> d.order.enderecoId.Some?
  {
    var d := OrderDetailOf(db, id).value;
    AddressesExistIff(db.pedidos, db.enderecos);
    KeyedIff(db.enderecos, AddressKey, db.nextEndereco);
    var k :| 0 <= k < |db.pedidos| && db.pedidos[k] == d.order;
    if d.order.enderecoId.Some? {
      var j :| 0 <= j < |db.enderecos| && db.enderecos[j].id == d.order.enderecoId.value;
      assert AddressKey(db.enderecos[j]) > 0;
    }
  }

  /**
   * What a committed submission reads back: the new row, exactly the new
   * items in submission order, the new address when one was saved and no
   * address otherwise, the owner's contact and no payment yet unless one
   * already names the key.
   */
  lemma PlaceOrderReadsBack(db: Db, req: OrderRequest, status: string)
    requires Consistent(db) && req.itens.Some?
    ensures var d := OrderDetailOf(PlaceOrder(db, req, status), db.nextPedido);
      && d.Some?
      && d.value.order == NewOrder(db, req, status)
      && d.value.itens == ItemRows(db.nextItem, db.nextPedido, req.itens.value)
      && d.value.endereco == (if HasStreet(req.endereco)
                              then Some(OrderAddress(db.nextEndereco, req.usuarioId, req.endereco.value))
                              else None)
      && d.value.cliente == ContactOf(db.usuarios, d.value.order.usuarioId)
      && d.value.pagamento == FirstPaymentOf(db.pagamentos, db.nextPedido)
  {
    var o := NewOrder(db, req, status);
    var db' := PlaceOrder(db, req, status);
    NewOrderFound(db.pedidos, db.nextPedido, o);
    assert db'.pedidos[|db.pedidos|] == o;
    assert OrderDetailOf(db', db.nextPedido)
        == Some(OrderDetail(o, ContactOf(db.usuarios, o.usuarioId), ItemsOf(db'.itens, db.nextPedido),
                            AddressOf(db'.enderecos, o.enderecoId), FirstPaymentOf(db.pagamentos, db.nextPedido)));
    NewItemsFound(db.itens, db.pedidos, db.nextPedido, db.nextItem, req.itens.value);
    if HasStreet(req.endereco) {
      NewAddressFound(db.enderecos, db.nextEndereco, OrderAddress(db.nextEndereco, req.usuarioId, req.endereco.value));
    }
  }

  lemma NewOrderFound(pedidos: seq<OrderRow>, next: nat, o: OrderRow)
    requires Keyed(pedidos, OrderKey, next) && o.id == next
    ensures FindFirst(pedidos + [o], OrderWithId(next)) == Some(|pedidos|)
  {
    KeyedIff(pedidos, OrderKey, next);
    var p := pedidos + [o];
    assert p[|pedidos|] == o;
    assert forall j :: 0 <= j < |pedidos| ==> p[j] == pedidos[j] && OrderKey(pedidos[j]) < next;
  }

  /** The new order's items are exactly the rows just added, because older items belong to older orders. */
  lemma NewItemsFound(itens: seq<ItemRow>, pedidos: seq<OrderRow>, nextPedido: nat, nextItem: nat, items: seq<ItemInput>)
    requires Keyed(pedidos, OrderKey, nextPedido) && ItemsBelong(itens, pedidos)
    ensures ItemsOf(itens + ItemRows(nextItem, nextPedido, items), nextPedido) == ItemRows(nextItem, nextPedido, items)
  {
    ItemsBelongIff(itens, pedidos);
    var added := ItemRows(nextItem, nextPedido, items);
    var q := ForOrder(nextPedido);
    KeyedIff(pedidos, OrderKey, nextPedido);
    forall k | 0 <= k < |itens| ensures !q(itens[k]) {
      var j :| 0 <= j < |pedidos| && pedidos[j].id == itens[k].pedidoId;
      assert OrderKey(pedidos[j]) < nextPedido;
    }
    FilterNone(itens, q);
    FilterKeepsAll(added, q);
    FilterConcat(itens, added, q);
    assert Filter(itens, q) + added == added;
  }

  lemma NewAddressFound(enderecos: seq<AddressRow>, next: nat, a: AddressRow)
    requires Keyed(enderecos, AddressKey, next) && a.id == next
    ensures AddressOf(enderecos + [a], Some(next)) == Some(a)
  {
    KeyedIff(enderecos, AddressKey, next);
    var e := enderecos + [a];
    assert e[|enderecos|] == a;
    assert forall j :: 0 <= j < |enderecos| ==> e[j] == enderecos[j] && AddressKey(enderecos[j]) < next;
  }

  /** An order together with its items, as the by-user list sends it. */
  datatype OrderWithItems = OrderWithItems(order: OrderRow, itens: seq<ItemRow>)

  function OfUser(usuarioId: int): OrderRow -> bool {
    (o: OrderRow) => o.usuarioId == Some(usuarioId)
  }

  /** A user's orders, newest first (`ORDER BY criado_em DESC` as reverse insertion order): all and only that user's. */
  function UserOrders(pedidos: seq<OrderRow>, usuarioId: int): (r: seq<OrderRow>)
    ensures forall o :: o in r <==> o in pedidos && o.usuarioId == Some(usuarioId)
  {
    var f := Filter(pedidos, OfUser(usuarioId));
    ReverseMembers(f);
    Reverse(f)
  }

  /** The list a user sees has keys strictly decreasing. */
  lemma UserOrdersNewestFirst(pedidos: seq<OrderRow>, next: nat, usuarioId: int)
    requires Keyed(pedidos, OrderKey, next)
    ensures var r := UserOrders(pedidos, usuarioId);
      forall i, j :: 0 <= i < j < |r| ==> r[i].id > r[j].id
  {
    var f := Filter(pedidos, OfUser(usuarioId));
    KeyedIff(pedidos, OrderKey, next);
    FilterIncreasing(pedidos, OrderKey, next, OfUser(usuarioId));
    var r := Reverse(f);
    forall i, j | 0 <= i < j < |r| ensures r[i].id > r[j].id {
      assert OrderKey(f[|f| - 1 - j]) < OrderKey(f[|f| - 1 - i]);
    }
  }

  /**
   * A status change is what the next read of that order shows, with every
   * other part of the read unchanged, and no other order reads differently.
   */
  lemma SetStatusReadsBack(db: Db, id: int, status: string)
    requires OrderExists(db.pedidos, id)
    ensures var db' := db.(pedidos := SetStatus(db.pedidos, id, status));
      var d := OrderDetailOf(db, id).value;
      && OrderDetailOf(db', id) == Some(d.(order := d.order.(status := status)))
      && forall j :: j != id ==> OrderDetailOf(db', j) == OrderDetailOf(db, j)
  {
    var p := db.pedidos;
    var p' := SetStatus(p, id, status);
    var db' := db.(pedidos := p');
    forall j ensures FindFirst(p', OrderWithId(j)) == FindFirst(p, OrderWithId(j)) {
      FindFirstAgree(p', OrderWithId(j), p, OrderWithId(j));
    }
    var k := FindFirst(p, OrderWithId(id)).value;
    assert p'[k] == p[k].(status := status);
    forall j | j != id ensures OrderDetailOf(db', j) == OrderDetailOf(db, j) {
      match FindFirst(p, OrderWithId(j))
      case None =>
      case Some(i) =>
        assert p'[i] == p[i];
    }
  }

  // ---------------------------------------------------------------------------
  // The store
  // ---------------------------------------------------------------------------

  class Store {
    var db: Db
    /** The `status` column default of `pedidos`, which the schema sets and the handlers never write. */
    const defaultStatus: string

    ghost predicate Valid()
      reads this
    {
      Consistent(db)
    }

    /** An empty database. */
    constructor (defaultStatus: string)
      ensures Valid()
      ensures this.defaultStatus == defaultStatus && db == EmptyDb
    {
      this.defaultStatus := defaultStatus;
      db := EmptyDb;
    }

    /**
     * POST /api/pedidos. Inside one transaction: the address when it has a
     * street, then the order, then one line item per entry. The writes go to
     * a working copy of the database that COMMIT publishes; an empty or
     * missing item list, or any statement that throws, discards it (ROLLBACK).
     */
    method CreateOrder(req: OrderRequest, fault: Fault) returns (r: Response<nat>)
      requires Valid()
      modifies this
      ensures Valid()
      ensures !HasItems(req.itens) ==> r == Failure(BadRequest(NoItems)) && db == old(db)
      ensures HasItems(req.itens) && FailsWithin(fault, WriteCount(req.endereco, req.itens.value)) ==>
        r == Failure(ServerError) && db == old(db)
      ensures HasItems(req.itens) && !FailsWithin(fault, WriteCount(req.endereco, req.itens.value)) ==>
        r == Success(201, old(db).nextPedido) && db == PlaceOrder(old(db), req, defaultStatus)
    {
      if !HasItems(req.itens) {
        return Failure(BadRequest(NoItems));
      }
      var ok, staged := StageOrder(req, fault);
      if !ok {
        // ROLLBACK: the working copy is discarded
        return Failure(ServerError);
      }
      // COMMIT
      PlaceOrderConsistent(db, req, defaultStatus);
      r := Success(201, db.nextPedido);
      db := staged;
    }

    /**
     * The statements of a submission, run against a working copy of the
     * database: the address INSERT when the address has a street, the order
     * INSERT, then the item loop, one INSERT per entry. `ok` is false when
     * one of them throws; the copy is then incomplete.
     */
    method StageOrder(req: OrderRequest, fault: Fault) returns (ok: bool, staged: Db)
      requires req.itens.Some?
      ensures ok <==> !FailsWithin(fault, WriteCount(req.endereco, req.itens.value))
      ensures ok ==> staged == PlaceOrder(db, req, defaultStatus)
    {
      var items := req.itens.value;
      staged := db;
      var step := 0;
      var enderecoId: Option<nat> := None;
      if HasStreet(req.endereco) {
        if Throws(fault, step) {
          return false, staged;
        }
        enderecoId := Some(db.nextEndereco);
        staged := staged.(enderecos := staged.enderecos + [OrderAddress(db.nextEndereco, req.usuarioId, req.endereco.value)],
                          nextEndereco := staged.nextEndereco + 1);
        step := step + 1;
      }
      if Throws(fault, step) {
        return false, staged;
      }
      staged := staged.(pedidos := staged.pedidos + [OrderRecord(db.nextPedido, req.usuarioId, enderecoId, req.metodoPag,
                                                                 req.total, req.observacao, defaultStatus)],
                        nextPedido := staged.nextPedido + 1);
      step := step + 1;
      assert staged.itens == db.itens + ItemRows(db.nextItem, db.nextPedido, items[..0]);

      var i := 0;
      while i < |items|
        invariant 0 <= i <= |items|
        invariant step == |SavedAddresses(db.nextEndereco, req.usuarioId, req.endereco)| + 1 + i
        invariant !FailsWithin(fault, step)
        invariant staged == PlaceOrder(db, req.(itens := Some(items[..i])), defaultStatus)
      {
        if Throws(fault, step) {
          return false, staged;
        }
        assert items[..i + 1][..i] == items[..i];
        staged := staged.(itens := staged.itens + [LineItem(db.nextItem + i, db.nextPedido, items[i])],
                          nextItem := staged.nextItem + 1);
        i := i + 1;
        step := step + 1;
      }
      assert items[..i] == items;
      ok := true;
    }

    /** GET /api/pedidos/:id */
    function GetOrder(id: int): (r: Response<OrderDetail>)
      reads this
      ensures r.Failure? <==> !OrderExists(db.pedidos, id)
      ensures r.Failure? ==> r.error == NotFound(OrderNotFound)
      ensures r.Success? ==> r.code == 200 && r.body.order in db.pedidos && r.body.order.id == id
      ensures r.Success? ==> OrderDetailOf(db, id) == Some(r.body)
    {
      match OrderDetailOf(db, id)
      case None => Failure(NotFound(OrderNotFound))
      case Some(d) => Success(200, d)
    }

    /** GET /api/pedidos/usuario/:id: the user's orders, newest first, each with its items. */
    method ListByUser(usuarioId: int) returns (r: seq<OrderWithItems>)
      ensures |r| == |UserOrders(db.pedidos, usuarioId)|
      ensures forall k :: 0 <= k < |r| ==>
        r[k] == OrderWithItems(UserOrders(db.pedidos, usuarioId)[k], ItemsOf(db.itens, UserOrders(db.pedidos, usuarioId)[k].id))
    {
      var sel := UserOrders(db.pedidos, usuarioId);
      r := [];
      for k := 0 to |sel|
        invariant |r| == k
        invariant forall j :: 0 <= j < k ==> r[j] == OrderWithItems(sel[j], ItemsOf(db.itens, sel[j].id))
      {
        r := r + [OrderWithItems(sel[k], ItemsOf(db.itens, sel[k].id))];
      }
    }

    /**
     * PATCH /api/admin/pedidos/:id/status. Only the six known statuses pass;
     * an accepted one replaces the current status, whatever it is, and an id
     * that matches no row changes nothing and still answers ok.
     */
    method UpdateStatus(auth: AdminAuth, id: int, status: string, fault: Fault) returns (r: Response<()>)
      requires Valid()
      modifies this
      ensures Valid()
      ensures auth != Verified ==> r == Failure(Authorize(auth).value) && db == old(db)
      ensures auth == Verified && !IsValidStatus(status) ==> r == Failure(BadRequest(InvalidStatus)) && db == old(db)
      ensures auth == Verified && IsValidStatus(status) && Throws(fault, 0) ==> r == Failure(ServerError) && db == old(db)
      ensures auth == Verified && IsValidStatus(status) && !Throws(fault, 0) ==>
        r == Success(200, ()) && db == old(db).(pedidos := SetStatus(old(db).pedidos, id, status))
    {
      var denied := Authorize(auth);
      if denied.Some? {
        return Failure(denied.value);
      }
      if !IsValidStatus(status) {
        return Failure(BadRequest(InvalidStatus));
      }
      if Throws(fault, 0) {
        return Failure(ServerError);
      }
      SetStatusKeyed(db.pedidos, db.nextPedido, id, status);
      SetStatusKeepsReferences(db.pedidos, db.itens, db.enderecos, id, status);
      db := db.(pedidos := SetStatus(db.pedidos, id, status));
      r := Success(200, ());
    }

    /**
     * POST /api/payment. The gateway's answer decides `aprovado` or
     * `recusado`; with a truthy `pedido_id` one payment row is inserted
     * (every call adds one) and only an approval confirms the order. These
     * statements are not in a transaction: a failing status update keeps
     * the payment row.
     */
    method Pay(token: string, transactionAmount: int, pedidoId: Option<int>, gateway: GatewayOutcome, fault: Fault)
      returns (r: Response<PaymentReply>)
      requires Valid()
      modifies this
      ensures Valid()
      ensures token == "" ==> r == Failure(BadRequest(NoCardToken)) && db == old(db)
      ensures token != "" && gateway.Threw? ==> r == Failure(ServerError) && db == old(db)
      ensures token != "" && gateway.Completed? && !TruthyInt(pedidoId) ==>
        r == Success(200, PaymentReply(ReplyStatus(PaymentStatus(gateway.intentStatus)), gateway.intentId))
        && db == old(db)
      ensures token != "" && gateway.Completed? && TruthyInt(pedidoId) ==>
        var stored := PaymentStatus(gateway.intentStatus);
        var approved := stored == "aprovado";
        var paid := old(db).(
          pagamentos := old(db).pagamentos + [PaymentRow(old(db).nextPagamento, pedidoId.value, Gateway,
                                                         gateway.intentId, stored, transactionAmount)],
          nextPagamento := old(db).nextPagamento + 1);
        && (Throws(fault, 0) ==> r == Failure(ServerError) && db == old(db))
        && (!Throws(fault, 0) ==>
              && db == (if approved && !Throws(fault, 1)
                        then paid.(pedidos := SetStatus(paid.pedidos, pedidoId.value, "confirmado"))
                        else paid)
              && r == (if approved && Throws(fault, 1) then Failure(ServerError)
                       else Success(200, PaymentReply(ReplyStatus(stored), gateway.intentId))))
    {
      if token == "" {
        return Failure(BadRequest(NoCardToken));
      }
      if gateway.Threw? {
        return Failure(ServerError);
      }
      var stored := PaymentStatus(gateway.intentStatus);
      if TruthyInt(pedidoId) {
        if Throws(fault, 0) {
          return Failure(ServerError);
        }
        var row := PaymentRow(db.nextPagamento, pedidoId.value, Gateway, gateway.intentId, stored, transactionAmount);
        KeyedAppend(db.pagamentos, PaymentKey, db.nextPagamento, row);
        db := db.(pagamentos := db.pagamentos + [row], nextPagamento := db.nextPagamento + 1);
        if stored == "aprovado" {
          if Throws(fault, 1) {
            return Failure(ServerError);
          }
          SetStatusKeyed(db.pedidos, db.nextPedido, pedidoId.value, "confirmado");
          SetStatusKeepsReferences(db.pedidos, db.itens, db.enderecos, pedidoId.value, "confirmado");
          db := db.(pedidos := SetStatus(db.pedidos, pedidoId.value, "confirmado"));
        }
      }
      r := Success(200, PaymentReply(ReplyStatus(stored), gateway.intentId));
    }

    /**
     * POST /api/usuarios/:id/enderecos. A primary address first clears the
     * flag on all of the user's addresses, so each user keeps at most one.
     * Not transactional: a failing INSERT keeps the clearing.
     */
    method SaveAddress(usuarioId: int, a: AddressInput, principal: bool, fault: Fault) returns (r: Response<nat>)
      requires Valid()
      modifies this
      ensures Valid()
      ensures principal && Throws(fault, 0) ==> r == Failure(ServerError) && db == old(db)
      ensures var cleared := if principal then old(db).(enderecos := ClearPrimary(old(db).enderecos, usuarioId)) else old(db);
        var insert := if principal then 1 else 0;
        && (!(principal && Throws(fault, 0)) && Throws(fault, insert) ==> r == Failure(ServerError) && db == cleared)
        && (!FailsWithin(fault, insert + 1) ==>
              && r == Success(201, old(db).nextEndereco)
              && db == cleared.(enderecos := cleared.enderecos + [ProfileAddress(old(db).nextEndereco, usuarioId, a, principal)],
                                nextEndereco := old(db).nextEndereco + 1))
    {
      var step := 0;
      if principal {
        if Throws(fault, step) {
          return Failure(ServerError);
        }
        ClearPrimaryEffect(db.enderecos, usuarioId);
        ClearPrimaryKeyed(db.enderecos, db.nextEndereco, usuarioId);
        ClearPrimaryKeepsReferences(db.pedidos, db.enderecos, usuarioId);
        db := db.(enderecos := ClearPrimary(db.enderecos, usuarioId));
        step := step + 1;
      }
      if Throws(fault, step) {
        return Failure(ServerError);
      }
      var row := ProfileAddress(db.nextEndereco, usuarioId, a, principal);
      KeyedAppend(db.enderecos, AddressKey, db.nextEndereco, row);
      if principal {
        ClearThenAppend(old(db).enderecos, usuarioId, row);
      } else {
        AppendNonPrimary(db.enderecos, row);
      }
      AddressesExistExtend(db.pedidos, db.enderecos, row);
      r := Success(201, db.nextEndereco);
      db := db.(enderecos := db.enderecos + [row], nextEndereco := db.nextEndereco + 1);
    }

    /** POST /api/usuarios. `hash` is what bcrypt makes of the password. */
    method Register(nome: string, email: string, senha: string, telefone: string, hash: string, fault: Fault)
      returns (r: Response<NewUser>)
      requires Valid()
      modifies this
      ensures Valid()
      ensures nome == "" || email == "" || senha == "" ==> r == Failure(BadRequest(MissingFields)) && db == old(db)
      ensures nome != "" && email != "" && senha != "" && |senha| < 6 ==>
        r == Failure(BadRequest(ShortPassword)) && db == old(db)
      ensures nome != "" && email != "" && |senha| >= 6 && EmailTaken(old(db).usuarios, email) ==>
        r == Failure(Conflict(EmailInUse)) && db == old(db)
      ensures nome != "" && email != "" && |senha| >= 6 && !EmailTaken(old(db).usuarios, email) ==>
        if Throws(fault, 0) then r == Failure(ServerError) && db == old(db)
        else
          && r == Success(201, NewUser(old(db).nextUsuario, nome, email))
          && db == old(db).(
               usuarios := old(db).usuarios + [UserRow(old(db).nextUsuario, nome, email, hash, StrOrNull(telefone), None, None)],
               nextUsuario := old(db).nextUsuario + 1)
    {
      if nome == "" || email == "" || senha == "" {
        return Failure(BadRequest(MissingFields));
      }
      if |senha| < 6 {
        return Failure(BadRequest(ShortPassword));
      }
      if EmailTaken(db.usuarios, email) {
        return Failure(Conflict(EmailInUse));
      }
      if Throws(fault, 0) {
        return Failure(ServerError);
      }
      var row := UserRow(db.nextUsuario, nome, email, hash, StrOrNull(telefone), None, None);
      KeyedAppend(db.usuarios, UserKey, db.nextUsuario, row);
      r := Success(201, NewUser(db.nextUsuario, nome, email));
      db := db.(usuarios := db.usuarios + [row], nextUsuario := db.nextUsuario + 1);
    }

    /**
     * POST /api/usuarios/recuperar-senha. Answers ok whether or not the
     * e-mail is known; for a known one it stores `token` (the signed JWT)
     * with an expiry one hour after `now`, in seconds.
     */
    method RecoverPassword(email: string, token: string, now: int, fault: Fault) returns (r: Response<()>)
      requires Valid()
      modifies this
      ensures Valid()
      ensures email == "" ==> r == Failure(BadRequest(MissingEmail)) && db == old(db)
      ensures email != "" && !EmailTaken(old(db).usuarios, email) ==> r == Success(200, ()) && db == old(db)
      ensures email != "" && EmailTaken(old(db).usuarios, email) ==>
        var id := UserWithEmail(old(db).usuarios, email).id;
        if Throws(fault, 0) then r == Failure(ServerError) && db == old(db)
        else
          && r == Success(200, ())
          && db == old(db).(usuarios := StoreResetToken(old(db).usuarios, id, token, now + 3600))
          && ResetTokenValid(db.usuarios, id, token, now)
    {
      if email == "" {
        return Failure(BadRequest(MissingEmail));
      }
      var found := FindFirst(db.usuarios, WithEmail(email));
      if found.None? {
        return Success(200, ());
      }
      if Throws(fault, 0) {
        return Failure(ServerError);
      }
      var k := found.value;
      var users := db.usuarios;
      StoredTokenMatches(users, k, token, now + 3600, now);
      UpdateUsersKeyed(users, db.nextUsuario, StoreResetToken(users, users[k].id, token, now + 3600));
      db := db.(usuarios := StoreResetToken(users, users[k].id, token, now + 3600));
      r := Success(200, ());
    }

    /**
     * POST /api/usuarios/resetar-senha. `payload` is what `jwt.verify` made
     * of the token (`None` when it threw) and `hash` what bcrypt makes of the
     * new password. A reset clears the stored token, so it works once.
     */
    method ResetPassword(token: string, novaSenha: string, payload: Option<ResetPayload>, hash: string,
                         now: int, fault: Fault) returns (r: Response<()>)
      requires Valid()
      modifies this
      ensures Valid()
      ensures token == "" || novaSenha == "" ==> r == Failure(BadRequest(MissingReset)) && db == old(db)
      ensures token != "" && 0 < |novaSenha| < 6 ==> r == Failure(BadRequest(ShortPassword)) && db == old(db)
      ensures token != "" && |novaSenha| >= 6 && payload.None? ==> r == Failure(BadRequest(ExpiredToken)) && db == old(db)
      ensures token != "" && |novaSenha| >= 6 && payload.Some? && payload.value.tipo != "recuperacao" ==>
        r == Failure(BadRequest(InvalidToken)) && db == old(db)
      ensures token != "" && |novaSenha| >= 6 && payload.Some? && payload.value.tipo == "recuperacao" ==>
        var id := payload.value.id;
        if !ResetTokenValid(old(db).usuarios, id, token, now) then
          r == Failure(BadRequest(UsedToken)) && db == old(db)
        else if Throws(fault, 0) then
          r == Failure(ServerError) && db == old(db)
        else
          && r == Success(200, ())
          && db == old(db).(usuarios := ConsumeResetToken(old(db).usuarios, id, hash))
          && (forall t :: !ResetTokenValid(db.usuarios, id, token, t))
    {
      if token == "" || novaSenha == "" {
        return Failure(BadRequest(MissingReset));
      }
      if |novaSenha| < 6 {
        return Failure(BadRequest(ShortPassword));
      }
      if payload.None? {
        return Failure(BadRequest(ExpiredToken));
      }
      if payload.value.tipo != "recuperacao" {
        return Failure(BadRequest(InvalidToken));
      }
      var id := payload.value.id;
      if !ResetTokenValid(db.usuarios, id, token, now) {
        return Failure(BadRequest(UsedToken));
      }
      if Throws(fault, 0) {
        return Failure(ServerError);
      }
      var users := db.usuarios;
      UpdateUsersKeyed(users, db.nextUsuario, ConsumeResetToken(users, id, hash));
      db := db.(usuarios := ConsumeResetToken(users, id, hash));
      forall t ensures !ResetTokenValid(db.usuarios, id, token, t) {
        ResetTokenSingleUse(users, id, hash, token, t);
      }
      r := Success(200, ());
    }
  }
}
