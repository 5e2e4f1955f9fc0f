/** The rules of the sale page's cart (`itensVenda` in vendas.js) as values:
    which line a product lands on, how a line's quantity and subtotal change,
    what the total and the finalize request are, which catalog entries a
    search shows and when the add button is enabled. Money is integer cents. */
module Cart {
  import opened Wrappers
  import opened JsStrings
  import opened JsArrays

  /** A catalog entry as the page receives it: id, name, unit price in
      cents and stock (shown next to the name, never checked). */
  datatype Product = Product(id: int, name: string, price: int, stock: int)

  /** One line of the cart: `{produto, quantidade, subtotal}`. */
  datatype LineItem = LineItem(product: Product, quantity: int, subtotal: int)

  /** One element of the finalize request: `{produto_id, quantidade, subtotal}`. */
  datatype RequestItem = RequestItem(productId: int, quantity: int, subtotal: int)

  // ---------------------------------------------------------------------
  // The cart's invariant
  // ---------------------------------------------------------------------

  /** At most one line per product id. */
  predicate UniqueIds(items: seq<LineItem>) {
    forall i, j :: 0 <= i < j < |items| ==> items[i].product.id != items[j].product.id
  }

  /** A line holds a positive quantity and its subtotal is quantity × price. */
  predicate LinePriced(line: LineItem) {
    line.quantity > 0 && line.subtotal == line.quantity * line.product.price
  }

  predicate WellFormed(items: seq<LineItem>) {
    UniqueIds(items) && forall i :: 0 <= i < |items| ==> LinePriced(items[i])
  }

  // ---------------------------------------------------------------------
  // Total
  // ---------------------------------------------------------------------

  /** `itensVenda.reduce((sum, item) => sum + item.subtotal, 0)`. */
  function Total(items: seq<LineItem>): (t: int)
    ensures (forall i :: 0 <= i < |items| ==> items[i].subtotal >= 0) ==> t >= 0
  {
    if items == [] then 0 else Total(items[..|items| - 1]) + items[|items| - 1].subtotal
  }

  /** The total of two carts laid end to end is the sum of their totals. */
  lemma {:induction false} TotalAppend(a: seq<LineItem>, b: seq<LineItem>)
    ensures Total(a + b) == Total(a) + Total(b)
    decreases |b|
  {
    if b == [] {
      assert a + b == a;
    } else {
      var b' := b[..|b| - 1];
      assert (a + b)[..|a + b| - 1] == a + b';
      TotalAppend(a, b');
    }
  }

  lemma TotalSnoc(a: seq<LineItem>, line: LineItem)
    ensures Total(a + [line]) == Total(a) + line.subtotal
  {
    assert (a + [line])[..|a|] == a;
  }

  /** The total is the total before line `k`, plus line `k`'s subtotal,
      plus the total after it. */
  lemma TotalSplit(items: seq<LineItem>, k: nat)
    requires k < |items|
    ensures Total(items) == Total(items[..k]) + items[k].subtotal + Total(items[k + 1..])
  {
    var front, back := items[..k], items[k + 1..];
    assert items == (front + [items[k]]) + back;
    TotalAppend(front + [items[k]], back);
    TotalSnoc(front, items[k]);
  }

  /** Replacing one line changes the total by the difference of the two
      subtotals. */
  lemma TotalUpdate(items: seq<LineItem>, k: nat, line: LineItem)
    requires k < |items|
    ensures Total(items[k := line]) == Total(items) - items[k].subtotal + line.subtotal
  {
    var front, back := items[..k], items[k + 1..];
    assert items == (front + [items[k]]) + back;
    assert items[k := line] == (front + [line]) + back;
    TotalAppend(front + [items[k]], back);
    TotalAppend(front + [line], back);
    TotalSnoc(front, items[k]);
    TotalSnoc(front, line);
  }

  // ---------------------------------------------------------------------
  // Finding, adding, editing and removing lines
  // ---------------------------------------------------------------------

  /** `itensVenda.find(item => item.produto.id === id)`, as the position of
      the first line holding that product id. */
  function FindLine(items: seq<LineItem>, id: int): (r: Option<nat>)
    ensures r.Some? ==> r.value < |items| && items[r.value].product.id == id
    ensures r.Some? ==> forall j :: 0 <= j < r.value ==> items[j].product.id != id
    ensures r.None? ==> forall j :: 0 <= j < |items| ==> items[j].product.id != id
  {
    if items == [] then None
    else if items[0].product.id == id then Some(0)
    else
      match FindLine(items[1..], id)
      case None => None
      case Some(k) => Some(k + 1)
  }

  /** The cart after the add button puts `q` units of `p` in it: the line
      already holding `p.id` gets `q` more units and its subtotal is worked
      out again from that line's product, or else a new last line is
      appended. */
  function AddToCart(items: seq<LineItem>, p: Product, q: int): (r: seq<LineItem>)
    ensures |items| <= |r| <= |items| + 1
    ensures forall i :: 0 <= i < |items| ==> r[i].product == items[i].product
  {
    match FindLine(items, p.id)
    case Some(k) =>
      assert items[k].product.id == p.id;
      var quantity := items[k].quantity + q;
      items[k := LineItem(items[k].product, quantity, quantity * items[k].product.price)]
    case None =>
      var r := items + [LineItem(p, q, q * p.price)];
      assert r[|items|].product.id == p.id;
      r
  }

  /** Line `i` with quantity `q` and its subtotal recomputed. */
  function SetQuantity(items: seq<LineItem>, i: nat, q: int): seq<LineItem>
    requires i < |items|
  {
    items[i := LineItem(items[i].product, q, q * items[i].product.price)]
  }

  /** `itensVenda.splice(i, 1)`: line `i` is gone and the others keep their
      relative order. */
  function RemoveAt(items: seq<LineItem>, i: nat): (r: seq<LineItem>)
    requires i < |items|
    ensures |r| == |items| - 1
    ensures forall j :: 0 <= j < i ==> r[j] == items[j]
    ensures forall j :: i <= j < |r| ==> r[j] == items[j + 1]
  {
    items[..i] + items[i + 1..]
  }

  /** Adding a product touches only the line holding its id, and appends a
      single new last line when there is none. */
  lemma AddToCartEffect(items: seq<LineItem>, p: Product, q: int)
    requires UniqueIds(items)
    ensures (forall i :: 0 <= i < |items| ==> items[i].product.id != p.id) ==>
              AddToCart(items, p, q) == items + [LineItem(p, q, q * p.price)]
    ensures forall k :: 0 <= k < |items| && items[k].product.id == p.id ==>
              var r := AddToCart(items, p, q);
              && |r| == |items|
              && r[k].product == items[k].product
              && r[k].quantity == items[k].quantity + q
              && r[k].subtotal == r[k].quantity * r[k].product.price
              && forall j :: 0 <= j < |items| && j != k ==> r[j] == items[j]
  {
    var f := FindLine(items, p.id);
    forall k | 0 <= k < |items| && items[k].product.id == p.id
      ensures f == Some(k)
    {
      assert f.Some?;
    }
  }

  /** Adding a positive quantity keeps the cart's invariant: one line per
      product id, every subtotal equal to quantity × price. */
  lemma AddToCartWellFormed(items: seq<LineItem>, p: Product, q: int)
    requires WellFormed(items) && q > 0
    ensures WellFormed(AddToCart(items, p, q))
  {
    var r := AddToCart(items, p, q);
    match FindLine(items, p.id)
    case Some(k) =>
      assert forall i :: 0 <= i < |r| ==> r[i].product.id == items[i].product.id;
    case None =>
      assert forall i :: 0 <= i < |items| ==> r[i] == items[i];
  }

  /** When the cart's line for `p.id` (if any) is priced like `p`, adding `q`
      units raises the total by `q × p.price`. */
  lemma AddToCartTotal(items: seq<LineItem>, p: Product, q: int)
    requires WellFormed(items)
    requires forall i :: 0 <= i < |items| && items[i].product.id == p.id ==> items[i].product.price == p.price
    ensures Total(AddToCart(items, p, q)) == Total(items) + q * p.price
  {
    match FindLine(items, p.id)
    case Some(k) =>
      assert LinePriced(items[k]) && items[k].product.price == p.price;
      MergedLineTotal(items, p, k, q);
    case None =>
      TotalSnoc(items, LineItem(p, q, q * p.price));
  }

  lemma MergedLineTotal(items: seq<LineItem>, p: Product, k: nat, q: int)
    requires FindLine(items, p.id) == Some(k)
    requires LinePriced(items[k]) && items[k].product.price == p.price
    ensures Total(AddToCart(items, p, q)) == Total(items) + q * p.price
  {
    var line := items[k];
    var quantity := line.quantity + q;
    var merged := LineItem(line.product, quantity, quantity * line.product.price);
    assert AddToCart(items, p, q) == items[k := merged];
    TotalUpdate(items, k, merged);
    Distribute(line.quantity, q, line.product.price);
  }

  lemma Distribute(a: int, b: int, c: int)
    ensures (a + b) * c == a * c + b * c
  {
  }

  lemma FindLineSameIds(items: seq<LineItem>, r: seq<LineItem>, id: int)
    requires |r| == |items|
    requires forall i :: 0 <= i < |items| ==> r[i].product.id == items[i].product.id
    ensures FindLine(r, id) == FindLine(items, id)
  {
    var a, b := FindLine(r, id), FindLine(items, id);
    if a.Some? && b.Some? {
      assert !(a.value < b.value) && !(b.value < a.value);
    }
  }

  /** Adding `a` units and then `b` units of the same product leaves the
      cart as adding `a + b` units at once: the two adds merge into one
      line. */
  lemma AddToCartTwice(items: seq<LineItem>, p: Product, a: int, b: int)
    ensures AddToCart(AddToCart(items, p, a), p, b) == AddToCart(items, p, a + b)
  {
    var once := AddToCart(items, p, a);
    match FindLine(items, p.id)
    case Some(k) =>
      FindLineSameIds(items, once, p.id);
    case None =>
      var f := FindLine(once, p.id);
      assert f == Some(|items|) by {
        assert once[|items|].product.id == p.id;
        assert forall j :: 0 <= j < |items| ==> once[j] == items[j];
      }
  }

  /** Changing line `i` to a positive quantity keeps the cart's invariant. */
  lemma SetQuantityWellFormed(items: seq<LineItem>, i: nat, q: int)
    requires WellFormed(items) && i < |items| && q > 0
    ensures WellFormed(SetQuantity(items, i, q))
  {
    var r := SetQuantity(items, i, q);
    assert forall j :: 0 <= j < |r| ==> r[j].product.id == items[j].product.id;
  }

  /** Removing a line keeps the cart's invariant. */
  lemma RemoveAtWellFormed(items: seq<LineItem>, i: nat)
    requires WellFormed(items) && i < |items|
    ensures WellFormed(RemoveAt(items, i))
  {
    var r := RemoveAt(items, i);
    forall a, b | 0 <= a < b < |r|
      ensures r[a].product.id != r[b].product.id
    {
      var a' := if a < i then a else a + 1;
      var b' := if b < i then b else b + 1;
      assert r[a] == items[a'] && r[b] == items[b'];
    }
  }

  /** Removing line `i` lowers the total by that line's subtotal. */
  lemma RemoveAtTotal(items: seq<LineItem>, i: nat)
    requires i < |items|
    ensures Total(RemoveAt(items, i)) == Total(items) - items[i].subtotal
  {
    TotalSplit(items, i);
    TotalAppend(items[..i], items[i + 1..]);
  }

  // ---------------------------------------------------------------------
  // Editing a line through the quantity prompt
  // ---------------------------------------------------------------------

  /** What `editarQuantidade(i)` does to the cart, given the prompt's answer
      (None when the prompt is cancelled) and the answer to the removal
      confirmation (asked only when the answer reads as 0). */
  function EditLine(items: seq<LineItem>, i: nat, answer: Option<string>, confirmRemoval: bool): (r: seq<LineItem>)
    requires i < |items|
    ensures |r| == |items| ==> forall j :: 0 <= j < |items| && j != i ==> r[j] == items[j]
    ensures |r| != |items| ==> r == RemoveAt(items, i)
  {
    match answer
    case None => items
    case Some(text) =>
      match ParseInt(text)
      case None => items
      case Some(q) =>
        if q > 0 then SetQuantity(items, i, q)
        else if q == 0 then (if confirmRemoval then RemoveAt(items, i) else items)
        else items
  }

  /** The four outcomes of an edit: a positive answer changes line `i` alone
      (quantity set, subtotal recomputed); an answer of 0 removes exactly
      line `i` when confirmed; a declined removal, a cancelled prompt or an
      answer that is not a number or is negative leave the cart as it was. */
  lemma EditLineEffect(items: seq<LineItem>, i: nat, answer: Option<string>, confirmRemoval: bool)
    requires i < |items|
    ensures var r := EditLine(items, i, answer, confirmRemoval);
      var q := if answer.Some? then ParseInt(answer.value) else None;
      && (q.Some? && q.value > 0 ==>
            && |r| == |items|
            && r[i].product == items[i].product && r[i].quantity == q.value
            && r[i].subtotal == q.value * items[i].product.price
            && forall j :: 0 <= j < |items| && j != i ==> r[j] == items[j])
      && (q.Some? && q.value == 0 && confirmRemoval ==> r == items[..i] + items[i + 1..])
      && (q.None? || q.value < 0 || (q.value == 0 && !confirmRemoval) ==> r == items)
  {
  }

  /** Every edit keeps the cart's invariant. */
  lemma EditLineWellFormed(items: seq<LineItem>, i: nat, answer: Option<string>, confirmRemoval: bool)
    requires WellFormed(items) && i < |items|
    ensures WellFormed(EditLine(items, i, answer, confirmRemoval))
  {
    if answer.Some? && ParseInt(answer.value).Some? {
      var q := ParseInt(answer.value).value;
      if q > 0 {
        SetQuantityWellFormed(items, i, q);
      } else if q == 0 && confirmRemoval {
        RemoveAtWellFormed(items, i);
      }
    }
  }

  /** Accepting the prompt as it opens, pre-filled with the line's current
      quantity, leaves the cart unchanged, for any quantity up to
      `Number.MAX_SAFE_INTEGER`. (From 1e21 on the pre-filled text is
      "1e+21", which `parseInt` reads as 1.) */
  lemma EditWithPrefilledAnswer(items: seq<LineItem>, i: nat, confirmRemoval: bool)
    requires WellFormed(items) && i < |items| && items[i].quantity <= MaxSafeInteger
    ensures EditLine(items, i, Some(IntToString(items[i].quantity)), confirmRemoval) == items
  {
    ParseIntOfIntToString(items[i].quantity);
    assert LinePriced(items[i]);
  }

  // ---------------------------------------------------------------------
  // The finalize request
  // ---------------------------------------------------------------------

  /** The request entry for one line. */
  function RequestOf(line: LineItem): RequestItem {
    RequestItem(line.product.id, line.quantity, line.subtotal)
  }

  /** `itensVenda.map(item => ({produto_id, quantidade, subtotal}))`. */
  function Request(items: seq<LineItem>): (r: seq<RequestItem>)
    ensures |r| == |items|
  {
    if items == [] then [] else Request(items[..|items| - 1]) + [RequestOf(items[|items| - 1])]
  }

  /** Sum of the subtotals the request carries. */
  function RequestTotal(request: seq<RequestItem>): int {
    if request == [] then 0 else RequestTotal(request[..|request| - 1]) + request[|request| - 1].subtotal
  }

  lemma {:induction false} RequestShape(items: seq<LineItem>)
    ensures |Request(items)| == |items|
    ensures forall i :: 0 <= i < |items| ==> Request(items)[i] == RequestOf(items[i])
  {
    if items != [] {
      var front := items[..|items| - 1];
      RequestShape(front);
      assert forall i :: 0 <= i < |front| ==> front[i] == items[i];
    }
  }

  lemma {:induction false} RequestTotalIsTotal(items: seq<LineItem>)
    ensures RequestTotal(Request(items)) == Total(items)
  {
    if items != [] {
      var front := items[..|items| - 1];
      RequestTotalIsTotal(front);
      RequestShape(front);
      var r := Request(items);
      assert r[..|r| - 1] == Request(front);
    }
  }

  /** A cart with one line per product sends a request that names each
      product id at most once. */
  lemma RequestIdsUnique(items: seq<LineItem>)
    requires UniqueIds(items)
    ensures forall i, j :: 0 <= i < j < |Request(items)| ==> Request(items)[i].productId != Request(items)[j].productId
  {
    RequestShape(items);
  }

  // ---------------------------------------------------------------------
  // Search and the add button
  // ---------------------------------------------------------------------

  /** The term the search box filters by: the input lower-cased, then
      trimmed. */
  function SearchTerm(input: string): string {
    Trim(ToLower(input))
  }

  /** A catalog entry matches when its lower-cased name contains the term
      (no accent folding). */
  predicate NameMatches(p: Product, term: string) {
    Includes(ToLower(p.name), term)
  }

  /** The result list of the search box: None when the term is empty (the
      list is hidden), otherwise the matching catalog entries in catalog
      order. */
  function Search(catalog: seq<Product>, input: string): (r: Option<seq<Product>>)
    ensures r.Some? ==> |r.value| <= |catalog| && forall i :: 0 <= i < |r.value| ==> r.value[i] in catalog
  {
    var term := SearchTerm(input);
    if |term| == 0 then None else Some(Filter(catalog, p => NameMatches(p, term)))
  }

  /** The list is hidden exactly when the input is blank; otherwise it holds
      every catalog entry whose lower-cased name contains the term and
      nothing else, and searching a list of entries laid end to end gives
      the two results laid end to end (so catalog order is kept). */
  lemma SearchResult(catalog: seq<Product>, more: seq<Product>, input: string)
    ensures Search(catalog, input).None? <==> forall i :: 0 <= i < |input| ==> IsWhitespace(input[i])
    ensures Search(catalog, input).Some? ==>
              forall p :: p in Search(catalog, input).value <==> p in catalog && NameMatches(p, SearchTerm(input))
    ensures Search(catalog, input).Some? ==>
              Search(catalog + more, input).value == Search(catalog, input).value + Search(more, input).value
  {
    var lowered := ToLower(input);
    TrimEmpty(lowered);
    assert forall i :: 0 <= i < |input| ==> (IsWhitespace(lowered[i]) <==> IsWhitespace(input[i]));
    var term := SearchTerm(input);
    FilterAppend(catalog, more, p => NameMatches(p, term));
  }

  /** Lower-casing folds no accents: "agua" does not find "\U{C1}gua". */
  lemma SearchDoesNotFoldAccents()
    ensures Search([Product(1, "\U{C1}gua", 500, 10)], "agua") == Some([])
  {
    TrimKeeps("agua");
    assert ToLower("agua") == "agua";
    assert ToLower("\U{C1}gua") == "\U{E1}gua";
    IncludesIffOccurs("\U{E1}gua", "agua");
  }

  /** The search ignores the case of the input. */
  lemma SearchIgnoresCase(catalog: seq<Product>, input: string)
    ensures Search(catalog, ToLower(input)) == Search(catalog, input)
  {
    ToLowerIdempotent(input);
  }

  /** `parseInt(text) || 0`: the number a field holds, 0 when it holds none. */
  function QuantityOrZero(text: string): int {
    match ParseInt(text)
    case Some(v) => v
    case None => 0
  }

  /** `verificarBotaoAdicionar`: the add button is enabled when a product is
      selected and the quantity field holds a positive number. */
  function AddEnabled(current: Option<Product>, quantityText: string): (enabled: bool)
    ensures enabled <==> current.Some? && ParseInt(quantityText).Some? && ParseInt(quantityText).value > 0
  {
    current.Some? && QuantityOrZero(quantityText) > 0
  }

  /** The subtotal shown beside the quantity field (None for the empty
      field). */
  function SubtotalPreview(current: Option<Product>, quantityText: string): Option<int> {
    var q := QuantityOrZero(quantityText);
    if current.Some? && q > 0 then Some(q * current.value.price) else None
  }

  /** The subtotal preview shows exactly while the add button is enabled,
      and it is then the field's quantity times the product's price. */
  lemma PreviewShownIffAddEnabled(current: Option<Product>, quantityText: string)
    ensures SubtotalPreview(current, quantityText).Some? <==> AddEnabled(current, quantityText)
    ensures SubtotalPreview(current, quantityText).Some? ==>
              SubtotalPreview(current, quantityText).value == ParseInt(quantityText).value * current.value.price
  {
  }

  /** When the add button is enabled, the click handler's own guard (a
      product selected, a non-empty quantity field) passes and `parseInt`
      of the field is a positive number, never NaN. */
  lemma EnabledAddPassesGuard(current: Option<Product>, quantityText: string)
    requires AddEnabled(current, quantityText)
    ensures current.Some? && quantityText != ""
    ensures ParseInt(quantityText).Some? && ParseInt(quantityText).value > 0
  {
  }
}
