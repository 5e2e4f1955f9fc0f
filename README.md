# Sale register: browser controllers

This project models the two browser controllers of a small Django point-of-sale app. The model is written in Dafny, and its properties are proved.

- **The sale page** (`vendas.js`):
  - the cashier searches the product catalog, picks a product and types a quantity;
  - they add lines to the cart (`itensVenda`), edit or remove lines, or clear the sale;
  - they finalize the sale, which sends the cart as a JSON request with a CSRF token read from the cookies.
- **The monthly report page** (`relatorios.js`):
  - it shows one card per day that had sales, coloured by the day's total, with the date, a sales label and the first two products sold;
  - its buttons preview a day in a modal and download daily or monthly PDFs;
  - a comparison figure shows today's difference from yesterday.

Module layout:

| file | module | what it holds |
|---|---|---|
| `wrappers.dfy` | `Wrappers` | `Option` |
| `js_strings.dfy` | `JsStrings` | `trim`, `toLowerCase`, `includes`, `split`/`join`, `String(n)`, `parseInt` |
| `js_arrays.dfy` | `JsArrays` | `Array.prototype.filter` |
| `uri_decoding.dfy` | `UriDecoding` | `decodeURIComponent`, including UTF-8 sequences and the URIError case |
| `cookies.dfy` | `Cookies` | `getCookie`: a loop with an early exit, proved against a first-match lookup function |
| `cart.dfy` | `Cart` | the cart rules as functions on values: merge by id, set, remove, total, request payload, search, add-button rule, quantity prompt |
| `sale_page.dfy` | `SalePage` | class `SaleController`: the sale page's shared state and one method per event handler |
| `reports.dfy` | `Reports` | the report page's rules: cards shown, colour tier, date fields, labels, month lookup, file names, comparison figure |
| `report_modal.dfy` | `ReportModal` | class `ReportPage`: the `modalData` state machine and the log of downloads |

How the source maps onto the model:

- **Money.** All amounts are integer cents. The card thresholds R$ 100, R$ 50 and R$ 20 become 10000, 5000 and 2000 cents.
- **Dialogs.** The answers to `confirm` and `prompt` are parameters. A cancelled prompt is `None`.
- **Inputs from outside.** The cookie string, the finalize outcome and the preview reply are also parameters.
- **Disabled buttons.** A disabled button dispatches no click. The controller's invariant ties the add button's state to `verificarBotaoAdicionar`'s rule, so the add handler's own guard always passes when the click goes through.
- **Finalize in two steps.**
  - `BeginFinalize` covers the synchronous part up to `fetch`.
  - `FinishFinalize` covers the settlement (`then`/`catch`/`finally`).
  - `pending` records that a request is outstanding.
- **Add handler order.** `ClickAdd` recomputes the total (`AddLine`) before it runs `limparSelecao` (`ClearSelection`), while the handler does these the other way round. The two steps touch disjoint state, so the end state is the same, and every method can then assume the class invariant on entry.

## Model

| member | source | states |
|---|---|---|
| JsStrings.Trim | registro_vendas/static/js/vendas.js:27 | the result is the input without its leading whitespace run and trailing whitespace, and neither end of the result is ECMAScript whitespace |
| JsStrings.TrimEmpty | registro_vendas/static/js/vendas.js:27-32 | the trimmed term is empty iff every character of the input is whitespace |
| JsStrings.TrimKeeps | registro_vendas/static/js/vendas.js:452 | a string with no whitespace at either end is left unchanged by trimming |
| JsStrings.TrimIdempotent | registro_vendas/static/js/vendas.js:27 | trimming twice equals trimming once |
| JsStrings.ToLower | registro_vendas/static/js/vendas.js:27 | `toLowerCase`, character by character: the length is kept, no capital A-Z is left, and a character is whitespace exactly when the input's character at that place is |
| JsStrings.ToLowerIdempotent | registro_vendas/static/js/vendas.js:36 | lower-casing twice equals lower-casing once |
| JsStrings.IncludesIffOccurs | registro_vendas/static/js/vendas.js:36 | `includes(s, t)` holds iff `t` occurs at some position of `s` |
| JsStrings.Includes | registro_vendas/static/js/vendas.js:36 | `s.includes(t)` as a scan over the suffixes of `s`; a text that includes `t` is at least as long as `t` |
| JsStrings.Split | registro_vendas/static/js/vendas.js:450 | `split` gives at least one piece, and no piece contains the separator |
| JsStrings.JoinSplit | registro_vendas/static/js/vendas.js:450 | joining the pieces of a split with the separator gives back the string |
| JsStrings.SplitJoin | registro_vendas/static/js/relatorios.js:205 | splitting a join of separator-free pieces gives back the pieces |
| JsStrings.NatToString | registro_vendas/static/js/relatorios.js:272 | `String(n)` of a non-negative integer is a non-empty digit string with no leading zero |
| JsStrings.DigitsValueOfNatToString | registro_vendas/static/js/vendas.js:214 | the digits `String(n)` writes have the decimal value `n` |
| JsStrings.ParseInt | registro_vendas/static/js/vendas.js:122 | `parseInt` with no radix: skip leading whitespace, take one optional sign, read hex after `0x`/`0X` and decimal otherwise, stop at the first non-digit; None is NaN (partners: `ParseIntNeedsDigit`, `ParseIntOfIntToString`) |
| JsStrings.ParseIntNeedsDigit | registro_vendas/static/js/vendas.js:104-122 | `parseInt` is a number only when a decimal digit stands right after the leading whitespace, or after the whitespace and one sign; otherwise it is NaN |
| JsStrings.ParseIntOfIntToString | registro_vendas/static/js/vendas.js:214-217 | `parseInt(String(n)) == n` for every safe integer, from `-Number.MAX_SAFE_INTEGER` to `Number.MAX_SAFE_INTEGER` |
| JsStrings.IntToStringInjective | registro_vendas/static/js/relatorios.js:272 | different integers are written differently |
| JsArrays.Filter | registro_vendas/static/js/vendas.js:35-37 | the result has only accepted elements of the input, and every accepted element of the input is in it |
| JsArrays.FilterAppend | registro_vendas/static/js/relatorios.js:169-174 | filtering distributes over concatenation, so the kept elements keep their order |
| JsArrays.FilterEmpty | registro_vendas/static/js/relatorios.js:154 | the result is empty iff no element is accepted |
| UriDecoding.UriDecode | registro_vendas/static/js/vendas.js:454 | a successful decode is never longer than its input |
| UriDecoding.UriDecodeNoEscapes | registro_vendas/static/js/vendas.js:454 | a value without `%` decodes to itself |
| UriDecoding.BrokenEscapeFails | registro_vendas/static/js/vendas.js:454 | when the first `%` of the value, at any position `k`, is not followed by two hex digits, the whole decode is a URIError |
| UriDecoding.DecodesTwoByteSequence | registro_vendas/static/js/vendas.js:454 | `%C3%A1` decodes to the one letter U+00E1 |
| UriDecoding.UriDecodeEscapeAscii | registro_vendas/static/js/vendas.js:454 | any text below U+0080 written entirely as `%XY` escapes decodes back to that text |
| UriDecoding.DecodeEscape | registro_vendas/static/js/vendas.js:454 | a decoded escape consumes at least three characters and no more than the input has |
| Cookies.CookieValue | registro_vendas/static/js/vendas.js:447-460 | what `getCookie(name)` returns for a cookie string; the special case for an empty string gives the same answer as the general first-match rule over its `;`-pieces |
| Cookies.Lookup | registro_vendas/static/js/vendas.js:450-457 | the answer of the first trimmed piece that starts with `name=`: its decoded remainder, or Malformed when decoding throws; a non-null answer always comes from some piece that is an entry for `name` |
| Cookies.GetCookie | registro_vendas/static/js/vendas.js:447-460 | the loop with its early `break` returns exactly the first-match lookup over the trimmed `;`-pieces, or null for an empty cookie string |
| Cookies.LookupFirstMatch | registro_vendas/static/js/vendas.js:450-457 | the lookup is null iff no trimmed piece starts with `name=`, and otherwise it is the decoded remainder of the first piece that does |
| Cookies.FindsPlainValue | registro_vendas/static/js/vendas.js:451-455 | an entry `name=value` yields exactly `value` when no earlier piece is an entry for `name`, the value holds no `%`, the name does not start with whitespace and the value does not end with it (`trim` would strip that whitespace) |
| Cart.Total | registro_vendas/static/js/vendas.js:240-243 | the `reduce` sum of the subtotals; a cart whose subtotals are all non-negative has a non-negative total |
| Cart.TotalAppend | registro_vendas/static/js/vendas.js:240-243 | the total of two carts laid end to end is the sum of their totals |
| Cart.TotalSnoc | registro_vendas/static/js/vendas.js:134-138 | appending a line adds its subtotal to the total |
| Cart.TotalSplit | registro_vendas/static/js/vendas.js:241 | the total is the total before line `k`, plus line `k`'s subtotal, plus the total after it |
| Cart.TotalUpdate | registro_vendas/static/js/vendas.js:130-131 | replacing one line changes the total by the difference of the two subtotals |
| Cart.FindLine | registro_vendas/static/js/vendas.js:126 | the result is the first index holding the id, or None iff no line holds it |
| Cart.RemoveAt | registro_vendas/static/js/vendas.js:204 | `splice(i, 1)` leaves one line fewer, keeps the lines before `i` and shifts the ones after it down by one |
| Cart.AddToCart | registro_vendas/static/js/vendas.js:126-139 | the cart after an add: at most one line more, and every existing line keeps its product in its place (partners: `AddToCartEffect`, `AddToCartWellFormed`, `AddToCartTwice`) |
| Cart.AddToCartEffect | registro_vendas/static/js/vendas.js:126-139 | an absent product is appended as one new last line `(p, q, q × price)`; a present one changes only its own line, whose quantity grows by `q` and whose subtotal is recomputed; the cart's length is unchanged |
| Cart.AddToCartWellFormed | registro_vendas/static/js/vendas.js:126-139 | adding a positive quantity keeps one line per id and subtotal = quantity × price on every line |
| Cart.AddToCartTotal | registro_vendas/static/js/vendas.js:126-144 | after an add of `q` units the total has grown by exactly `q` × price |
| Cart.MergedLineTotal | registro_vendas/static/js/vendas.js:128-131 | merging into an existing line grows the total by `q` × price |
| Cart.AddToCartTwice | registro_vendas/static/js/vendas.js:126-139 | adding `a` then `b` units of a product gives the same cart as adding `a + b` |
| Cart.FindLineSameIds | registro_vendas/static/js/vendas.js:126 | the found line depends only on the sequence of ids |
| Cart.SetQuantityWellFormed | registro_vendas/static/js/vendas.js:219-221 | setting a positive quantity keeps the cart's invariant |
| Cart.RemoveAtWellFormed | registro_vendas/static/js/vendas.js:204 | removing a line keeps the cart's invariant |
| Cart.RemoveAtTotal | registro_vendas/static/js/vendas.js:204-206 | removing line `i` lowers the total by that line's subtotal |
| Cart.EditLine | registro_vendas/static/js/vendas.js:212-237 | the cart after `editarQuantidade(i)`: when the length is unchanged only line `i` can differ, and otherwise exactly line `i` was removed (partner: `EditLineEffect`) |
| Cart.EditLineEffect | registro_vendas/static/js/vendas.js:212-237 | the four outcomes of the quantity prompt (see below) |
| Cart.EditLineWellFormed | registro_vendas/static/js/vendas.js:212-237 | every prompt answer keeps the cart's invariant |
| Cart.EditWithPrefilledAnswer | registro_vendas/static/js/vendas.js:214-221 | accepting the prompt with its pre-filled current quantity leaves the cart unchanged, for quantities up to `Number.MAX_SAFE_INTEGER` |
| Cart.Request | registro_vendas/static/js/vendas.js:320-326 | the `itensVenda.map` payload: one entry per cart line (partners: `RequestShape`, `RequestTotalIsTotal`, `RequestIdsUnique`) |
| Cart.RequestShape | registro_vendas/static/js/vendas.js:320-326 | the payload has one entry per line, in cart order, each `(produto_id, quantidade, subtotal)` of that line |
| Cart.RequestTotalIsTotal | registro_vendas/static/js/vendas.js:320-326 | the payload's subtotals sum to the cart total shown in the confirmation |
| Cart.RequestIdsUnique | registro_vendas/static/js/vendas.js:320-326 | a cart with one line per product sends a payload that names each product id at most once |
| Cart.Search | registro_vendas/static/js/vendas.js:26-37 | the search box's result list: hidden for a blank term, otherwise a sub-list of the catalog no longer than it (partners: `SearchResult`, `SearchIgnoresCase`) |
| Cart.SearchResult | registro_vendas/static/js/vendas.js:26-41 | the result list is hidden iff the input is blank; otherwise it holds exactly the catalog entries whose lower-cased name contains the lower-cased, trimmed term, in catalog order |
| Cart.SearchIgnoresCase | registro_vendas/static/js/vendas.js:27 | searching the lower-cased input gives the same result as searching the input |
| Cart.SearchDoesNotFoldAccents | registro_vendas/static/js/vendas.js:27-36 | lower-casing folds no accents: "agua" does not find "Água" |
| Cart.AddEnabled | registro_vendas/static/js/vendas.js:113-116 | `verificarBotaoAdicionar`: the add button is enabled exactly when a product is selected and `parseInt` of the field is a positive number |
| Cart.SubtotalPreview | registro_vendas/static/js/vendas.js:102-109 | the subtotal beside the quantity field: `parseInt(text) || 0` times the price, hidden unless that quantity is positive and a product is selected |
| Cart.PreviewShownIffAddEnabled | registro_vendas/static/js/vendas.js:102-116 | the subtotal preview shows exactly while the add button is enabled, and it is then the field's quantity times the product's price |
| Cart.EnabledAddPassesGuard | registro_vendas/static/js/vendas.js:113-122 | when the add button is enabled, the handler's guard passes and `parseInt` of the field is a positive number, never NaN |
| SalePage.CsrfHeader | registro_vendas/static/js/vendas.js:333 | the `X-CSRFToken` header value: the cookie's decoded value, or the text "null" that `fetch` makes of a missing cookie |
| SalePage.SameIdSameEntry | registro_vendas/static/js/vendas.js:126 | two catalog entries with the same id are the same entry |
| SalePage.AddFromCatalog | registro_vendas/static/js/vendas.js:126-144 | adding a catalog product keeps the cart well-formed and made of catalog products, and grows the total by `q` × price |
| SalePage.SaleController.constructor | registro_vendas/static/js/vendas.js:19-23 | the page starts with no selection, an empty cart, total 0 and the add button disabled |
| SalePage.SaleController.TypeSearch | registro_vendas/static/js/vendas.js:26-41 | the visible result list becomes `Search(catalog, input)`, and nothing else changes |
| SalePage.SaleController.Select | registro_vendas/static/js/vendas.js:84-99 | the clicked entry becomes the current product, the fields are emptied, the add button is disabled and the list is hidden |
| SalePage.SaleController.TypeQuantity | registro_vendas/static/js/vendas.js:102-116 | with a product selected, the subtotal preview and the add button follow the new text; without one only the text changes |
| SalePage.SaleController.ClickAdd | registro_vendas/static/js/vendas.js:119-148 | a disabled button changes nothing; otherwise the cart becomes `AddToCart` of the field's quantity, the total grows by quantity × price and the selection is cleared |
| SalePage.SaleController.AddLine | registro_vendas/static/js/vendas.js:126-144 | the merge step of the add handler and `calcularTotal`: the cart becomes `AddToCart`, the total grows by quantity × price, and the class invariant is kept |
| SalePage.SaleController.RemoveItem | registro_vendas/static/js/vendas.js:201-209 | a confirmed removal deletes exactly line `i` and lowers the total by its subtotal; a declined one changes nothing |
| SalePage.SaleController.EditQuantity | registro_vendas/static/js/vendas.js:212-237 | the cart becomes `EditLine` of the prompt's answer, and the total follows |
| SalePage.SaleController.ClearSelection | registro_vendas/static/js/vendas.js:246-254 | no product selected, the fields blank, the add button disabled, the list hidden; the class invariant is kept |
| SalePage.SaleController.ClearSale | registro_vendas/static/js/vendas.js:257-274 | an empty cart or a declined confirmation changes nothing; otherwise the cart is empty, the total 0 and the selection cleared |
| SalePage.SaleController.ClickOutside | registro_vendas/static/js/vendas.js:522-526 | a click outside the search box hides the result list |
| SalePage.SaleController.PressEscape | registro_vendas/static/js/vendas.js:530-534 | Escape clears the selection and keeps the cart |
| SalePage.SaleController.BeginFinalize | registro_vendas/static/js/vendas.js:286-336 | a disabled button, an empty cart or a declined confirmation send nothing and change nothing; otherwise the button is disabled and the request carries the payload of the cart and the CSRF cookie (the text "null" when the cookie is missing); a malformed cookie value throws, so nothing is sent and the button stays disabled |
| SalePage.SaleController.FinishFinalize | registro_vendas/static/js/vendas.js:337-370 | an accepted sale empties the cart and clears the selection; a refused one or a connection error leaves everything as it was; the button is enabled again in every case |
| Reports.CardsShown | registro_vendas/static/js/relatorios.js:154-174 | the reports that become cards: no more than there are reports, and each one has `tem_vendas` |
| Reports.CardsShownProperties | registro_vendas/static/js/relatorios.js:154-174 | exactly the reports with `tem_vendas` become cards, in their original order, and the empty-month message shows iff no report has sales |
| Reports.DayTier | registro_vendas/static/js/relatorios.js:188-200 | green iff the total exceeds R$ 100; blue iff it exceeds R$ 50 but not R$ 100; yellow iff it exceeds R$ 20 but not R$ 50; gray otherwise; exactly one applies |
| Reports.DayTierMonotone | registro_vendas/static/js/relatorios.js:191-200 | a larger total never falls into a lower tier |
| Reports.TierClasses | registro_vendas/static/js/relatorios.js:188-200 | the text-colour class and background class of a tier: a `text-` class and a `bg-` class |
| Reports.TierClassesDistinct | registro_vendas/static/js/relatorios.js:188-202 | different tiers get different text and background classes |
| Reports.DateFields | registro_vendas/static/js/relatorios.js:205-207 | fields 0 and 1 of `data.split('/')`, the second `undefined` when there is no `/`; neither field contains a `/` |
| Reports.DateFieldsOfDate | registro_vendas/static/js/relatorios.js:205-207 | the day and month of a card dated `d/m/y` are `d` and `m` |
| Reports.FieldArgument | registro_vendas/static/js/relatorios.js:228-234 | the value a date field pasted into an inline handler passes: `undefined` exactly for a missing field, and a number is never negative |
| Reports.LiteralValue | registro_vendas/static/js/relatorios.js:228-234 | the value of a digit run read as a sloppy-mode numeric literal: legacy octal after a leading 0 when every other digit is octal, decimal otherwise |
| Reports.ShortFieldIsDecimal | registro_vendas/static/js/relatorios.js:228-234 | a one- or two-digit date field pasted as a literal into the button handlers has its decimal value, leading zero or not |
| Reports.CardArguments | registro_vendas/static/js/relatorios.js:205-234 | a card dated `d/m/y` passes the decimal values of `d` and `m` to its buttons |
| Reports.CardFileNameExample | registro_vendas/static/js/relatorios.js:272 | the card for 05/03/2024 downloads `relatorio_5_3_2024.pdf` |
| Reports.SalesLabel | registro_vendas/static/js/relatorios.js:216 | `${n} venda` plus `s` unless `n !== 1` (partner: `SalesLabelPlural`) |
| Reports.SalesLabelPlural | registro_vendas/static/js/relatorios.js:216 | the label starts with the count and ends in "s" iff the count is not 1 |
| Reports.SummaryList | registro_vendas/static/js/relatorios.js:220-222 | the first two `produtos_resumo` entries as `qtyx name`, joined by ", " (partners: `SummaryShowsFirstTwo`, `SummaryOfFewProducts`) |
| Reports.SummaryEllipsis | registro_vendas/static/js/relatorios.js:223 | "..." when there are more than two products, nothing otherwise |
| Reports.SummaryShowsFirstTwo | registro_vendas/static/js/relatorios.js:220-223 | with two or more products the summary is the first two as "qty x name" joined by ", ", and "..." appears iff there are more than two |
| Reports.SummaryOfFewProducts | registro_vendas/static/js/relatorios.js:220-223 | with at most one product the summary is that product or nothing, with no "..." |
| Reports.MonthNumber | registro_vendas/static/js/relatorios.js:311-318 | `getMesNumero`: always a month number between 1 and 12 |
| Reports.MonthNumberOfName | registro_vendas/static/js/relatorios.js:311-318 | the twelve month names map to 1..12 in order, and any other text maps to 1 |
| Reports.MonthNumberInverse | registro_vendas/static/js/relatorios.js:311-318 | a number other than 1 comes only from that month's name |
| Reports.DailyFileName | registro_vendas/static/js/relatorios.js:272 | `relatorio_{dia}_{mes}_{ano}.pdf` (partners: `DailyFileNameMiddle`, `DailyFileNameInjective`) |
| Reports.DailyLink | registro_vendas/static/js/relatorios.js:271 | `/vendas/download-relatorio-diario/{ano}/{mes}/{dia}/` |
| Reports.DailyFileNameMiddle | registro_vendas/static/js/relatorios.js:272 | the part of a daily file name between `relatorio_` and `.pdf` splits at `_` into day, month and year |
| Reports.DailyFileNameInjective | registro_vendas/static/js/relatorios.js:272 | two different days never share a daily file name |
| Reports.ArgTextInjective | registro_vendas/static/js/relatorios.js:272 | different button arguments are written differently |
| Reports.MonthlyFileName | registro_vendas/static/js/relatorios.js:287-289 | `relatorio_mensal_{meses[mes]}_{ano}.pdf`, with "undefined" past either end of `meses` (partner: `MonthlyFileNameOfHeader`) |
| Reports.MonthlyLink | registro_vendas/static/js/relatorios.js:286 | `/vendas/download-relatorio-mensal/{ano}/{mes}/` |
| Reports.MonthlyFileNameOfHeader | registro_vendas/static/js/relatorios.js:282-289 | the header's monthly button downloads `relatorio_mensal_<month in lower case>_<year>.pdf`, and January for text that is not a month name |
| Reports.LowerMonthName | registro_vendas/static/js/relatorios.js:287-288 | the file list holds each month name in lower case |
| Reports.ComparisonText | registro_vendas/static/js/relatorios.js:70-82 | the comparison figure's text: `+R$ ` and the amount for a gain, `R$ ` and the signed amount for a loss, the literal `R$ 0,00` for none (partner: `ComparisonTextSign`) |
| Reports.ComparisonTextSign | registro_vendas/static/js/relatorios.js:70-82 | the figure starts with "+" iff the difference is positive, with "R$ -" iff negative, and reads "R$ 0,00" iff zero |
| Reports.ComparisonPaletteAsWritten | registro_vendas/static/js/relatorios.js:70-79 | the colour each refresh leaves, as written: from the initial purple it is the sign rule's colour, and once green or red it never changes again |
| Reports.StaleComparisonColour | registro_vendas/static/js/relatorios.js:70-79 | as written, a loss shown after a gain keeps the green colour (see Findings) |
| Reports.ComparisonPalette | registro_vendas/static/js/relatorios.js:70-79 | the corrected colour: green iff a gain, red iff a loss, purple iff no change |
| ReportModal.ReportPage.constructor | registro_vendas/static/js/relatorios.js:17 | the modal starts hidden with `modalData` null, and nothing is downloaded |
| ReportModal.ReportPage.PreviewLoaded | registro_vendas/static/js/relatorios.js:246-264 | `modalData` is set to the day, and the modal shown, only for a reply without `erro`; an error or a failed request shows the error pane and leaves the modal alone |
| ReportModal.ReportPage.CloseModal | registro_vendas/static/js/relatorios.js:306-309 | the modal is hidden and `modalData` is null, whatever the state before |
| ReportModal.ReportPage.DownloadDay | registro_vendas/static/js/relatorios.js:266-280 | exactly one download is added: that day's link and `relatorio_{dia}_{mes}_{ano}.pdf` |
| ReportModal.ReportPage.DownloadMonth | registro_vendas/static/js/relatorios.js:282-297 | exactly one download is added: that month's link and `relatorio_mensal_{meses[mes]}_{ano}.pdf` |
| ReportModal.ReportPage.DownloadFromModal | registro_vendas/static/js/relatorios.js:299-304 | with `modalData` null nothing is downloaded; otherwise that day is downloaded once and the modal closes |
| ReportModal.ReportPage.PressEscape | registro_vendas/static/js/relatorios.js:47-51 | Escape leaves the modal closed with `modalData` null |

The four outcomes of the quantity prompt (`Cart.EditLineEffect`):

1. A positive answer sets line `i`'s quantity and recomputes its subtotal. Every other line is untouched.
2. An answer of 0 with confirmation removes exactly line `i`.
3. An answer of 0 without confirmation leaves the cart unchanged.
4. A cancelled prompt, a non-number or a negative number leaves the cart unchanged.

Every `SaleController` method keeps the class invariant `Valid()`:

- at most one line per product id;
- subtotal = quantity × price on every line;
- every line's product comes from the catalog;
- the displayed total equals the sum of the subtotals;
- the add button and the subtotal preview agree with the current product and the quantity text;
- the finalize button is disabled while a request is pending.

`ReportPage` keeps its own invariant: the modal is visible iff `modalData` is set.

## Left out

- DOM building, HTML templates, notifications, the success modal, the button animations and focus handling: presentation only.
- `fetch`, JSON parsing and `<a download>` clicks: browser I/O.
  - The finalize outcome, the preview reply and the cookie string are parameters.
  - Downloads are recorded as (link, file name) pairs.
- Timers (`setTimeout`, the 5-minute `setInterval`) and overlapping report searches answered out of order: event-loop concurrency.
- `buscarRelatorios` and `carregarEstatisticasRapidas` as requests. Of the statistics, only the comparison figure's rule is modelled.
- Floating-point money and `toFixed(2)`. Amounts are integer cents, so the R$ 100/50/20 thresholds are exact only for whole-cent totals. `Reports.MoneyText` writes cents the way `toFixed(2)` writes whole-cent values.
- `toLowerCase` is modelled for Basic Latin and Latin-1 capitals only. Other scripts are left as they are.
- JsStrings.ParseInt: returns the exact integer for any digit run. JS `parseInt` returns a Number, which rounds above 2^53 (`parseInt("9007199254740993")` is 9007199254740992). Cart quantities are likewise unbounded integers here, not Numbers.
- JsStrings.NatToString and JsStrings.IntToString: always write plain decimal. JS `String(n)` switches to exponent form from 1e21 ("1e+21"). For this reason `JsStrings.ParseIntOfIntToString` and `Cart.EditWithPrefilledAnswer` are stated only up to `Number.MAX_SAFE_INTEGER`. Above it, accepting a pre-filled "1e+21" in the source sets the quantity to 1.
- `Reports.MonthNumber` does not model keys that `getMesNumero`'s object literal inherits from `Object.prototype`, such as "constructor". With such a key, `|| 1` gives that inherited value instead of 1.
- `Reports.FieldArgument` is None for a date field that is not a run of digits. A date the server formats never has such a field. In the page, such text would be pasted into the inline handler as source code.
- `produtos_resumo` is taken as a list of entries in `Object.keys` order. The engine's own key ordering (integer-like keys first) is not modelled.
- `SalePage.SaleController.FinishFinalize` does not model this case: a successful reply without `total` makes the success modal throw before the cart is cleared, which sends the handler to `catch`.
- The button states at page load come from the HTML template, which is not part of this model. The model starts with the add button disabled and the finalize button enabled.
- The Python side is not part of this model: views, models, URL routing, PDF generation and the management command.

## Findings

| source | as written | input that shows it | evidently intended | confidence | as-written member | corrected member |
|---|---|---|---|---|---|---|
| registro_vendas/static/js/relatorios.js:70-79 | each refresh recolours the comparison figure with `className.replace('text-purple-900', …)` (and the card's `bg-purple-50 …`), which finds nothing once the first refresh has replaced the purple token | a refresh with a difference of +15.00, then, five minutes later, one with −8.00: the figure reads "R$ -8.00" in green | the colour follows the sign of the current difference: green for a gain, red for a loss, neutral for none | high (not executed) | Reports.ComparisonPaletteAsWritten, shown by Reports.StaleComparisonColour | Reports.ComparisonPalette |
