/** The admin panel's status vocabulary and order-list filter (frontend/src/pages/AdminPanel.tsx). */
module Admin {
  import opened Common
  import opened Tables

  /** `STATUS_LABELS`: each status key with the label the panel shows, in declaration order. */
  const StatusLabels: seq<(string, string)> := [
    ("pendente", "Pendente"),
    ("confirmado", "Confirmado"),
    ("em_preparo", "Em preparo"),
    ("em_entrega", "Em entrega"),
    ("entregue", "Entregue"),
    ("cancelado", "Cancelado")
  ]

  /** `STATUS_OPTIONS`: the keys of `STATUS_LABELS`, in order. */
  function StatusOptions(): (r: seq<string>)
    ensures |r| == |StatusLabels|
    ensures forall k :: 0 <= k < |r| ==> r[k] == StatusLabels[k].0
    ensures r == ValidStatuses
  {
    seq(|StatusLabels|, k requires 0 <= k < |StatusLabels| => StatusLabels[k].0)
  }

  /** The panel offers exactly the statuses the server accepts, in the same order. */
  lemma OptionsAreServerStatuses()
    ensures StatusOptions() == ValidStatuses
  {
  }

  /** `STATUS_LABELS[status]?.label`: the label, or nothing for a status the panel does not know. */
  function LabelOf(status: string): (r: Option<string>)
    ensures r.Some? <==> IsValidStatus(status)
    ensures r.Some? ==> exists k :: 0 <= k < |StatusLabels| && StatusLabels[k] == (status, r.value)
  {
    match FindFirst(StatusLabels, (e: (string, string)) => e.0 == status)
    case None => None
    case Some(k) => Some(StatusLabels[k].1)
  }

  /** The filter tab that shows every order. */
  const AllOrders: string := "todos"

  function WithStatus(filtro: string): OrderRow -> bool {
    (p: OrderRow) => p.status == filtro
  }

  /** `pedidosFiltrados`: the whole list under "todos", otherwise the orders with that status. */
  function FilterOrders(pedidos: seq<OrderRow>, filtro: string): (r: seq<OrderRow>)
    ensures SubseqOf(r, pedidos)
    ensures filtro == AllOrders ==> r == pedidos
    ensures filtro != AllOrders ==> forall p :: p in r <==> p in pedidos && p.status == filtro
  {
    if filtro == AllOrders then
      SubseqRefl(pedidos);
      pedidos
    else
      FilterIsSubseq(pedidos, WithStatus(filtro));
      Filter(pedidos, WithStatus(filtro))
  }

  /** A new order at the end of the list shows up at the end of every tab whose test it passes. */
  lemma FilterOrdersAppend(pedidos: seq<OrderRow>, p: OrderRow, filtro: string)
    ensures FilterOrders(pedidos + [p], filtro)
         == FilterOrders(pedidos, filtro) + (if filtro == AllOrders || p.status == filtro then [p] else [])
  {
    if filtro != AllOrders {
      FilterConcat(pedidos, [p], WithStatus(filtro));
      assert Filter([p], WithStatus(filtro)) == (if p.status == filtro then [p] else []) + Filter([p][1..], WithStatus(filtro));
    }
  }

  /** A status tab shows the same list whether applied once or twice. */
  lemma FilterOrdersIdempotent(pedidos: seq<OrderRow>, filtro: string)
    ensures FilterOrders(FilterOrders(pedidos, filtro), filtro) == FilterOrders(pedidos, filtro)
  {
    if filtro != AllOrders {
      FilterIdempotent(pedidos, WithStatus(filtro));
    }
  }
}
