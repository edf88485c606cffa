/** The confirmation page's pure parts (frontend/src/pages/ConfirmationPage.tsx). */
module Confirmation {
  import opened Common
  import opened Text

  /** A string value that JavaScript treats as true: present and not empty. */
  predicate Truthy(s: Option<string>) {
    s.Some? && s.value != ""
  }

  /** What the page does when it mounts: go back to the menu, or fetch one order. */
  datatype Effect = NavigateHome | FetchOrder(url: string)

  /** The address of `GET /api/pedidos/:id` under the backend's base address. */
  function OrderUrl(backendUrl: string, pedidoId: string): string {
    backendUrl + "/api/pedidos/" + pedidoId
  }

  /**
   * The effect of mounting: `pedido_id` is the query parameter when it is
   * truthy and the value kept in session storage otherwise; with neither the
   * page navigates home and fetches nothing.
   */
  function OnMount(backendUrl: string, urlParam: Option<string>, stored: Option<string>): (r: Effect)
    ensures r == NavigateHome <==> !Truthy(urlParam) && !Truthy(stored)
    ensures Truthy(urlParam) ==> r == FetchOrder(OrderUrl(backendUrl, urlParam.value))
    ensures !Truthy(urlParam) && Truthy(stored) ==> r == FetchOrder(OrderUrl(backendUrl, stored.value))
  {
    var pedidoId := if Truthy(urlParam) then urlParam else stored;
    if !Truthy(pedidoId) then NavigateHome else FetchOrder(OrderUrl(backendUrl, pedidoId.value))
  }

  /** The fetched address names the order: two mounts fetch the same address only for the same id. */
  lemma OrderUrlInjective(backendUrl: string, a: string, b: string)
    requires OrderUrl(backendUrl, a) == OrderUrl(backendUrl, b)
    ensures a == b
  {
    var prefix := backendUrl + "/api/pedidos/";
    assert OrderUrl(backendUrl, a)[|prefix|..] == a;
    assert OrderUrl(backendUrl, b)[|prefix|..] == b;
  }

  /** `s.charAt(0).toUpperCase() + s.slice(1)`. */
  function Capitalize(s: string): (r: string)
    ensures |r| == |s|
    ensures s != [] ==> r[0] == UpperChar(s[0]) && r[1..] == s[1..]
  {
    if s == [] then [] else [UpperChar(s[0])] + s[1..]
  }

  /** Capitalizing a capitalized word changes nothing. */
  lemma CapitalizeIdempotent(s: string)
    ensures Capitalize(Capitalize(s)) == Capitalize(s)
  {
    if s != [] {
      UpperIdempotent(s[0]);
      assert Capitalize(s)[1..] == s[1..];
    }
  }

  /** The two payment statuses the server stores read "Aprovado" and "Recusado". */
  lemma PaymentStatusLabels()
    ensures Capitalize("aprovado") == "Aprovado"
    ensures Capitalize("recusado") == "Recusado"
  {
  }

  /** Multi-word statuses keep their underscore on this page, unlike the admin panel's labels. */
  lemma StatusKeepsUnderscore()
    ensures Capitalize("em_preparo") == "Em_preparo"
  {
  }

  /** `methodLabel`: a label for each payment method the checkout offers. */
  const MethodLabels: map<string, string> := map[
    "cartao" := "\U{1F4B3} Cart\U{00E3}o de cr\U{00E9}dito/d\U{00E9}bito",
    "pix" := "\U{1F4F1} PIX",
    "dinheiro" := "\U{1F4B5} Dinheiro na entrega"
  ]

  /** `methodLabel[metodo_pag] || metodo_pag`: the label for a known method, the stored value otherwise. */
  function MethodLabel(metodoPag: string): (r: string)
    ensures metodoPag in MethodLabels ==> r == MethodLabels[metodoPag]
    ensures r == metodoPag <==> metodoPag !in MethodLabels
  {
    if metodoPag in MethodLabels && MethodLabels[metodoPag] != "" then MethodLabels[metodoPag] else metodoPag
  }
}
