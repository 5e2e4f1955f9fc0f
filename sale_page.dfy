/** The sale page of vendas.js as an object: the state its handlers share
    (the catalog, the selected product, the quantity field, the subtotal
    preview, the add and finalize buttons, the visible search results and
    the cart `itensVenda` with its displayed total) and one method per
    event. Dialog answers (`confirm`, `prompt`), the cookie string and the
    server's reply are parameters; markup, notifications, focus and timers
    are not modelled. */
module SalePage {
  import opened Wrappers
  import opened JsStrings
  import opened Cart
  import opened Cookies
  import opened JsArrays

  /** The cookie that holds Django's CSRF token. */
  const CsrfCookieName := "csrftoken"

  /** The finalize POST: the `X-CSRFToken` header and the `itens` payload. */
  datatype SaleRequest = SaleRequest(csrfHeader: string, items: seq<RequestItem>)

  /** How the finalize request ended: a JSON reply with `sucesso` true, a
      JSON reply without it, or a failed fetch or unreadable reply. */
  datatype Outcome = Accepted | Refused | ConnectionError

  /** The `X-CSRFToken` header sent for a cookie lookup that did not throw:
      the token, or the text "null" that `fetch` makes of a missing one. */
  function CsrfHeader(token: CookieLookup): string
    requires !token.Malformed?
  {
    match token
    case Found(v) => v
    case Absent => "null"
  }

  /** The catalog the page is rendered with has one entry per id. */
  predicate CatalogIdsUnique(catalog: seq<Product>) {
    forall i, j :: 0 <= i < j < |catalog| ==> catalog[i].id != catalog[j].id
  }

  /** Two catalog entries with the same id are the same entry, so every
      cart line of a product carries that product's price. */
  lemma SameIdSameEntry(catalog: seq<Product>, a: Product, b: Product)
    requires CatalogIdsUnique(catalog) && a in catalog && b in catalog && a.id == b.id
    ensures a == b
  {
    var i :| 0 <= i < |catalog| && catalog[i] == a;
    var j :| 0 <= j < |catalog| && catalog[j] == b;
  }

  /** Adding a catalog product to a cart of catalog products keeps the
      cart's invariant and its link to the catalog, and adds exactly the
      quantity times the product's price to the total. */
  lemma AddFromCatalog(catalog: seq<Product>, items: seq<LineItem>, p: Product, q: int)
    requires CatalogIdsUnique(catalog) && p in catalog
    requires WellFormed(items) && forall i :: 0 <= i < |items| ==> items[i].product in catalog
    requires q > 0
    ensures var r := AddToCart(items, p, q);
      && WellFormed(r)
      && (forall i :: 0 <= i < |r| ==> r[i].product in catalog)
      && Total(r) == Total(items) + q * p.price
  {
    forall i | 0 <= i < |items| && items[i].product.id == p.id
      ensures items[i].product.price == p.price
    {
      SameIdSameEntry(catalog, items[i].product, p);
    }
    AddToCartWellFormed(items, p, q);
    AddToCartTotal(items, p, q);
    AddToCartEffect(items, p, q);
  }

  /** An edit of a cart of catalog products leaves a cart of catalog
      products. */
  lemma EditFromCatalog(catalog: seq<Product>, items: seq<LineItem>, i: nat, answer: Option<string>, confirmRemoval: bool)
    requires i < |items| && forall j :: 0 <= j < |items| ==> items[j].product in catalog
    ensures var r := EditLine(items, i, answer, confirmRemoval);
      forall j :: 0 <= j < |r| ==> r[j].product in catalog
  {
    EditLineEffect(items, i, answer, confirmRemoval);
  }

  class SaleController {
    const catalog: seq<Product>
    /** `produtoAtual`. */
    var current: Option<Product>
    /** The text of the quantity field. */
    var quantityText: string
    /** The subtotal beside the quantity field, in cents (None when blank). */
    var subtotalShown: Option<int>
    /** Whether the add button is enabled. */
    var addEnabled: bool
    /** The result list under the search box, None while it is hidden. */
    var results: Option<seq<Product>>
    /** `itensVenda`. */
    var items: seq<LineItem>
    /** The total on the page, in cents. */
    var totalShown: int
    /** Whether the finalize button is enabled. */
    var finalizeEnabled: bool
    /** Whether a finalize request has been sent and not yet settled. */
    var pending: bool

    /** What every handler keeps: a well-formed cart of catalog products,
        buttons and displayed figures that agree with the state they are
        computed from, and a finalize button that is disabled while a
        request is pending. */
    ghost predicate Valid()
      reads this
    {
      && CatalogIdsUnique(catalog)
      && WellFormed(items)
      && (forall i :: 0 <= i < |items| ==> items[i].product in catalog)
      && (current.Some? ==> current.value in catalog)
      && (results.Some? ==> forall i :: 0 <= i < |results.value| ==> results.value[i] in catalog)
      && addEnabled == AddEnabled(current, quantityText)
      && subtotalShown == SubtotalPreview(current, quantityText)
      && totalShown == Total(items)
      && (pending ==> !finalizeEnabled)
    }

    /** The page as it loads: nothing selected, an empty cart. */
    constructor (catalog: seq<Product>)
      requires CatalogIdsUnique(catalog)
      ensures Valid()
      ensures this.catalog == catalog
      ensures current == None && quantityText == "" && subtotalShown == None && !addEnabled
      ensures results == None && items == [] && totalShown == 0
      ensures finalizeEnabled && !pending
    {
      this.catalog := catalog;
      current := None;
      quantityText := "";
      subtotalShown := None;
      addEnabled := false;
      results := None;
      items := [];
      totalShown := 0;
      finalizeEnabled := true;
      pending := false;
    }

    /** The `input` handler of the search box: a blank term hides the list,
        any other shows the matching catalog entries (possibly none, with a
        "not found" line). */
    method TypeSearch(input: string)
      requires Valid()
      modifies this`results
      ensures Valid()
      ensures results == Search(catalog, input)
    {
      var term := Trim(ToLower(input));
      if |term| == 0 {
        results := None;
        return;
      }
      results := Some(Filter(catalog, p => NameMatches(p, term)));
    }

    /** `limparSelecao`: no product selected, the fields blank, the add
        button disabled and the result list hidden. */
    method ClearSelection()
      requires Valid()
      modifies this`current, this`quantityText, this`subtotalShown, this`addEnabled, this`results
      ensures Valid()
      ensures current == None && quantityText == "" && subtotalShown == None
      ensures !addEnabled && results == None
    {
      current := None;
      quantityText := "";
      subtotalShown := None;
      addEnabled := false;
      results := None;
    }

    /** `selecionarProduto`, run by a click on an entry of the visible
        result list: that entry becomes the current product, the quantity
        and subtotal fields are emptied and the list is hidden. */
    method Select(p: Product)
      requires Valid() && results.Some? && p in results.value
      modifies this`current, this`quantityText, this`subtotalShown, this`addEnabled, this`results
      ensures Valid()
      ensures current == Some(p) && quantityText == "" && subtotalShown == None
      ensures !addEnabled && results == None
    {
      current := Some(p);
      results := None;
      quantityText := "";
      subtotalShown := None;
      addEnabled := current.Some? && QuantityOrZero(quantityText) > 0;
    }

    /** The `input` handler of the quantity field: with a product selected
        the subtotal preview and the add button follow the new text;
        without one only the text changes. */
    method TypeQuantity(text: string)
      requires Valid()
      modifies this`quantityText, this`subtotalShown, this`addEnabled
      ensures Valid()
      ensures quantityText == text
      ensures current.Some? ==> subtotalShown == SubtotalPreview(current, text) && addEnabled == AddEnabled(current, text)
      ensures current.None? ==> subtotalShown == old(subtotalShown) == None && addEnabled == old(addEnabled) == false
    {
      quantityText := text;
      if current.Some? {
        var q := QuantityOrZero(text);
        subtotalShown := if q > 0 then Some(q * current.value.price) else None;
        addEnabled := current.Some? && q > 0;
      }
    }

    /** A click on the add button, or Enter in the quantity field while the
        button is enabled. A disabled button dispatches no click, so nothing
        changes then; otherwise the field's quantity of the current
        product is merged into the cart, the selection is cleared and the
        total grows by that quantity times the product's price. */
    method ClickAdd()
      requires Valid()
      modifies this`items, this`totalShown, this`current, this`quantityText, this`subtotalShown, this`addEnabled, this`results
      ensures Valid()
      ensures !old(addEnabled) ==> unchanged(this)
      ensures old(addEnabled) ==>
                && old(current).Some?
                && items == AddToCart(old(items), old(current).value, QuantityOrZero(old(quantityText)))
                && totalShown == old(totalShown) + QuantityOrZero(old(quantityText)) * old(current).value.price
                && current == None && quantityText == "" && subtotalShown == None
                && !addEnabled && results == None
    {
      if !addEnabled || current.None? || quantityText == "" {
        return;
      }
      var p := current.value;
      var q := QuantityOrZero(quantityText);
      AddLine(p, q);
      ClearSelection();
    }

    /** The merge step of the add handler followed by `calcularTotal`: `q`
        units of the catalog product `p` go into the cart and the displayed
        total follows. */
    method AddLine(p: Product, q: int)
      requires Valid() && p in catalog && q > 0
      modifies this`items, this`totalShown
      ensures Valid()
      ensures items == AddToCart(old(items), p, q)
      ensures totalShown == old(totalShown) + q * p.price
    {
      AddFromCatalog(catalog, items, p, q);
      items := AddToCart(items, p, q);
      totalShown := Total(items);
    }

    /** `removerItem(i)`: once confirmed, line `i` leaves the cart and the
        total drops by its subtotal. */
    method RemoveItem(i: nat, confirmed: bool)
      requires Valid() && i < |items|
      modifies this`items, this`totalShown
      ensures Valid()
      ensures confirmed ==> items == RemoveAt(old(items), i) && totalShown == old(totalShown) - old(items)[i].subtotal
      ensures !confirmed ==> items == old(items) && totalShown == old(totalShown)
    {
      if confirmed {
        RemoveAtWellFormed(items, i);
        RemoveAtTotal(items, i);
        items := RemoveAt(items, i);
        totalShown := Total(items);
      }
    }

    /** `editarQuantidade(i)`, given the prompt's answer (None when it is
        cancelled) and the answer to the removal question asked for 0. */
    method EditQuantity(i: nat, answer: Option<string>, confirmRemoval: bool)
      requires Valid() && i < |items|
      modifies this`items, this`totalShown
      ensures Valid()
      ensures items == EditLine(old(items), i, answer, confirmRemoval)
    {
      EditLineWellFormed(items, i, answer, confirmRemoval);
      EditFromCatalog(catalog, items, i, answer, confirmRemoval);
      if answer.Some? {
        var parsed := ParseInt(answer.value);
        if parsed.Some? && parsed.value > 0 {
          items := SetQuantity(items, i, parsed.value);
          totalShown := Total(items);
        } else if parsed.Some? && parsed.value == 0 {
          if confirmRemoval {
            items := RemoveAt(items, i);
            totalShown := Total(items);
          }
        }
      }
    }

    /** `limparVenda`: with an empty cart only a notice is shown; otherwise,
        once confirmed, the cart and the selection are cleared. */
    method ClearSale(confirmed: bool)
      requires Valid()
      modifies this`items, this`totalShown, this`current, this`quantityText, this`subtotalShown, this`addEnabled, this`results
      ensures Valid()
      ensures old(items) == [] || !confirmed ==> unchanged(this)
      ensures old(items) != [] && confirmed ==>
                && items == [] && totalShown == 0
                && current == None && quantityText == "" && subtotalShown == None
                && !addEnabled && results == None
    {
      if items == [] {
        return;
      }
      if confirmed {
        items := [];
        totalShown := Total(items);
        ClearSelection();
      }
    }

    /** A click outside the search box and its list hides the list. */
    method ClickOutside()
      requires Valid()
      modifies this`results
      ensures Valid()
      ensures results == None
    {
      results := None;
    }

    /** The Escape key clears the selection. */
    method PressEscape()
      requires Valid()
      modifies this`current, this`quantityText, this`subtotalShown, this`addEnabled, this`results
      ensures Valid()
      ensures current == None && quantityText == "" && subtotalShown == None
      ensures !addEnabled && results == None
    {
      ClearSelection();
    }

    /** The synchronous part of `finalizarVenda`, run by a click on the
        finalize button with the answer to its confirmation and the page's
        cookie string. A disabled button, an empty cart or a declined
        confirmation change nothing. Otherwise the button is disabled and
        the request is built from the cart; when the CSRF cookie's value is
        malformed the lookup throws, so no request is sent and the button
        stays disabled. */
    method BeginFinalize(confirmed: bool, cookieJar: string) returns (request: Option<SaleRequest>)
      requires Valid()
      modifies this`finalizeEnabled, this`pending
      ensures Valid()
      ensures !old(finalizeEnabled) || items == [] || !confirmed ==>
                request == None && finalizeEnabled == old(finalizeEnabled) && pending == old(pending)
      ensures old(finalizeEnabled) && items != [] && confirmed ==>
                && !finalizeEnabled
                && var token := CookieValue(cookieJar, CsrfCookieName);
                   (token.Malformed? ==> request == None && !pending)
                   && (!token.Malformed? ==> request == Some(SaleRequest(CsrfHeader(token), Request(items))) && pending)
    {
      request := None;
      if !finalizeEnabled || items == [] || !confirmed {
        return;
      }
      finalizeEnabled := false;
      var payload := Request(items);
      var token := GetCookie(cookieJar, CsrfCookieName);
      if token.Malformed? {
        return;
      }
      request := Some(SaleRequest(CsrfHeader(token), payload));
      pending := true;
    }

    /** The settlement of a pending finalize request: an accepted sale
        empties the cart and clears the selection; every outcome enables the
        button again. */
    method FinishFinalize(outcome: Outcome)
      requires Valid() && pending
      modifies this
      ensures Valid()
      ensures finalizeEnabled && !pending
      ensures outcome == Accepted ==>
                && items == [] && totalShown == 0
                && current == None && quantityText == "" && subtotalShown == None
                && !addEnabled && results == None
      ensures outcome != Accepted ==>
                && items == old(items) && totalShown == old(totalShown)
                && current == old(current) && quantityText == old(quantityText)
                && subtotalShown == old(subtotalShown) && addEnabled == old(addEnabled)
                && results == old(results)
    {
      if outcome == Accepted {
        items := [];
        totalShown := Total(items);
        ClearSelection();
      }
      finalizeEnabled := true;
      pending := false;
    }
  }
}
