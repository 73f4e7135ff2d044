/**
 * The decision rules of the admin `ProductsTable` component: which body the
 * table shows, how a product's status becomes a badge, whether the
 * pagination bar appears, the numbered page links, and the previous/next
 * controls with the page each one requests.
 *
 * Pagination state belongs to the caller: the component only turns
 * (currentPage, totalPages) into controls and reports a requested page
 * through the optional `onPageChange` callback.
 */
module ProductsTable {
  import opened Wrappers
  import opened JsValues

  /** A product as the table reads it; every field but the id may be missing. */
  datatype Product = Product(
    id: string,
    name: Option<string>,
    brand: Option<string>,
    sellingPrice: Option<int>,
    status: Option<string>)

  // ---------------------------------------------------------------------------
  // Status badge
  // ---------------------------------------------------------------------------

  /** How the table classifies a product's raw status value. */
  datatype Status = Active | OutOfStock | Inactive

  /** The colour of the status badge. */
  datatype Style = Green | Amber | Red

  const ActiveLabel := "Ativo"
  const OutOfStockLabel := "Sem Est."
  const InactiveLabel := "Inativo"

  /** Only the two exact values `active` and `out_of_stock` are recognised; anything else is inactive. */
  function StatusOf(raw: Option<string>): (s: Status)
    ensures s == Active <==> raw == Some("active")
    ensures s == OutOfStock <==> raw == Some("out_of_stock")
    ensures s == Inactive <==> raw != Some("active") && raw != Some("out_of_stock")
  {
    if raw == Some("active") then Active
    else if raw == Some("out_of_stock") then OutOfStock
    else Inactive
  }

  /** The badge colour, chosen by its own conditional chain. */
  function BadgeStyle(raw: Option<string>): (style: Style)
    ensures style == Green <==> StatusOf(raw) == Active
    ensures style == Amber <==> StatusOf(raw) == OutOfStock
    ensures style == Red <==> StatusOf(raw) == Inactive
  {
    if raw == Some("active") then Green
    else if raw == Some("out_of_stock") then Amber
    else Red
  }

  /** The badge text, chosen by a second, separate conditional chain. */
  function BadgeLabel(raw: Option<string>): (text: string)
    ensures text == "Ativo" <==> StatusOf(raw) == Active
    ensures text == "Sem Est." <==> StatusOf(raw) == OutOfStock
    ensures text == "Inativo" <==> StatusOf(raw) == Inactive
  {
    if raw == Some("active") then ActiveLabel
    else if raw == Some("out_of_stock") then OutOfStockLabel
    else InactiveLabel
  }

  /** Each status gets its fixed label and colour. */
  lemma BadgeFollowsStatus(raw: Option<string>)
    ensures StatusOf(raw) == Active ==> BadgeLabel(raw) == "Ativo" && BadgeStyle(raw) == Green
    ensures StatusOf(raw) == OutOfStock ==> BadgeLabel(raw) == "Sem Est." && BadgeStyle(raw) == Amber
    ensures StatusOf(raw) == Inactive ==> BadgeLabel(raw) == "Inativo" && BadgeStyle(raw) == Red
  {
  }

  /**
   * The two chains never disagree: two products get the same label exactly
   * when they get the same colour, so label and colour come from one branch.
   */
  lemma LabelAndStyleAgree(a: Option<string>, b: Option<string>)
    ensures BadgeLabel(a) == BadgeLabel(b) <==> BadgeStyle(a) == BadgeStyle(b)
    ensures BadgeLabel(a) == BadgeLabel(b) <==> StatusOf(a) == StatusOf(b)
  {
  }

  // ---------------------------------------------------------------------------
  // Rows and body
  // ---------------------------------------------------------------------------

  const MissingName := "Sem nome"
  const LoadingMessage := "Carregando produtos..."
  const EmptyMessage := "Nenhum produto encontrado."

  /**
   * One table row: the key, the shown name and brand, the amount handed to
   * the currency formatter, the badge, and the values the edit and delete
   * buttons pass to their callbacks.
   */
  datatype Row = Row(
    key: string,
    name: string,
    brand: string,
    price: int,
    badgeLabel: string,
    badgeStyle: Style,
    editArgument: Product,
    deleteArgument: string)

  function RowOf(p: Product): (r: Row)
    ensures r.key == p.id && r.deleteArgument == p.id && r.editArgument == p
    ensures r.name != ""
    ensures Truthy(p.name) ==> r.name == p.name.value
    ensures !Truthy(p.name) ==> r.name == MissingName
    ensures r.brand == "" <==> !Truthy(p.brand)
    ensures Truthy(p.brand) ==> r.brand == p.brand.value
    ensures p.sellingPrice.None? ==> r.price == 0
    ensures p.sellingPrice.Some? ==> r.price == p.sellingPrice.value
    ensures r.badgeLabel == BadgeLabel(p.status) && r.badgeStyle == BadgeStyle(p.status)
  {
    Row(p.id, Or(p.name, MissingName), Or(p.brand, ""), p.sellingPrice.GetOr(0),
        BadgeLabel(p.status), BadgeStyle(p.status), p, p.id)
  }

  /** `filteredProducts.map(...)`: one row per product, in input order. */
  function RowsOf(ps: seq<Product>): (rows: seq<Row>)
    ensures |rows| == |ps|
    ensures forall i :: 0 <= i < |ps| ==> rows[i] == RowOf(ps[i])
  {
    if |ps| == 0 then [] else [RowOf(ps[0])] + RowsOf(ps[1..])
  }

  datatype Body = LoadingPlaceholder | EmptyPlaceholder | ProductRows(rows: seq<Row>)

  /** Loading wins over the empty message, which wins over the rows. */
  function BodyOf(loading: bool, ps: seq<Product>): (b: Body)
    ensures b == LoadingPlaceholder <==> loading
    ensures b == EmptyPlaceholder <==> !loading && |ps| == 0
    ensures b.ProductRows? <==> !loading && |ps| > 0
    ensures b.ProductRows? ==> |b.rows| == |ps|
    ensures b.ProductRows? ==> forall i :: 0 <= i < |ps| ==> b.rows[i] == RowOf(ps[i])
  {
    if loading then LoadingPlaceholder
    else if |ps| == 0 then EmptyPlaceholder
    else ProductRows(RowsOf(ps))
  }

  /** The single full-width message row shown instead of product rows. */
  function PlaceholderText(b: Body): (text: string)
    requires !b.ProductRows?
    ensures b.LoadingPlaceholder? ==> text == "Carregando produtos..."
    ensures b.EmptyPlaceholder? ==> text == "Nenhum produto encontrado."
  {
    if b.LoadingPlaceholder? then LoadingMessage else EmptyMessage
  }

  /** The product list does not matter while loading. */
  lemma LoadingHidesProducts(ps: seq<Product>, qs: seq<Product>)
    ensures BodyOf(true, ps) == BodyOf(true, qs) == LoadingPlaceholder
  {
  }

  /** Rows identify their products: the i-th row's key and delete argument are the i-th product's id. */
  lemma RowsFollowInputOrder(ps: seq<Product>, i: int)
    requires 0 <= i < |ps|
    ensures BodyOf(false, ps).ProductRows?
    ensures BodyOf(false, ps).rows[i].key == ps[i].id
    ensures BodyOf(false, ps).rows[i].editArgument == ps[i]
  {
  }

  // ---------------------------------------------------------------------------
  // Pagination
  // ---------------------------------------------------------------------------

  const DefaultCurrentPage := 1
  const DefaultTotalPages := 1

  /** A previous/next control: the page its click requests and whether it is greyed out. */
  datatype PageControl = PageControl(target: int, inactive: bool)

  /** A numbered page link. */
  datatype PageLink = PageLink(page: int, active: bool)

  datatype PaginationBar = PaginationBar(previous: PageControl, links: seq<PageLink>, next: PageControl)

  /** The bar appears only under a list of rows that spans more than one page. */
  function ShowsPagination(loading: bool, ps: seq<Product>, totalPages: int): (shown: bool)
    ensures shown ==> BodyOf(loading, ps).ProductRows?
    ensures shown <==> BodyOf(loading, ps).ProductRows? && totalPages > 1
  {
    !loading && |ps| > 0 && totalPages > 1
  }

  /**
   * "Previous" requests max(1, currentPage - 1) and is greyed out at or
   * below the first page. The clamp is one-sided: nothing bounds the
   * target by totalPages.
   */
  function PreviousControl(currentPage: int, totalPages: int): (c: PageControl)
    ensures c.target >= 1
    ensures 1 <= currentPage <= totalPages ==> 1 <= c.target <= totalPages
    ensures c.inactive <==> currentPage <= 1
    ensures !c.inactive ==> c.target == currentPage - 1
    ensures c.inactive ==> c.target == 1
  {
    PageControl(if currentPage - 1 < 1 then 1 else currentPage - 1, currentPage <= 1)
  }

  /**
   * "Next" requests min(totalPages, currentPage + 1) and is greyed out at
   * or beyond the last page. The clamp is one-sided: nothing bounds the
   * target from below.
   */
  function NextControl(currentPage: int, totalPages: int): (c: PageControl)
    ensures c.target <= totalPages
    ensures 1 <= currentPage <= totalPages ==> 1 <= c.target <= totalPages
    ensures c.inactive <==> currentPage >= totalPages
    ensures !c.inactive ==> c.target == currentPage + 1
    ensures c.inactive ==> c.target == totalPages
  {
    PageControl(if totalPages < currentPage + 1 then totalPages else currentPage + 1, currentPage >= totalPages)
  }

  /** The links first, first+1, ..., totalPages; a link is active when it is the current page. */
  function LinksFrom(first: int, totalPages: int, currentPage: int): (links: seq<PageLink>)
    decreases totalPages - first
    ensures |links| == if first <= totalPages then totalPages - first + 1 else 0
    ensures forall i :: 0 <= i < |links| ==> links[i].page == first + i
    ensures forall i :: 0 <= i < |links| ==> (links[i].active <==> first + i == currentPage)
  {
    if first > totalPages then []
    else [PageLink(first, first == currentPage)] + LinksFrom(first + 1, totalPages, currentPage)
  }

  /** `Array.from({length: totalPages}, (_, i) => i + 1)`, each link flagged active when it equals currentPage. */
  function PageLinks(currentPage: int, totalPages: int): (links: seq<PageLink>)
    ensures |links| == if totalPages > 0 then totalPages else 0
    ensures forall i :: 0 <= i < |links| ==> links[i].page == i + 1
    ensures forall i :: 0 <= i < |links| ==> (links[i].active <==> i + 1 == currentPage)
  {
    LinksFrom(1, totalPages, currentPage)
  }

  /** The links are strictly ascending and at most one of them is active. */
  lemma PageLinksAscendingAtMostOneActive(currentPage: int, totalPages: int, i: int, j: int)
    requires 0 <= i < j < |PageLinks(currentPage, totalPages)|
    ensures PageLinks(currentPage, totalPages)[i].page < PageLinks(currentPage, totalPages)[j].page
    ensures !(PageLinks(currentPage, totalPages)[i].active && PageLinks(currentPage, totalPages)[j].active)
  {
  }

  /** A current page inside [1, totalPages] is marked by exactly one link: the one at index currentPage - 1. */
  lemma CurrentPageLinkIsActive(currentPage: int, totalPages: int)
    requires 1 <= currentPage <= totalPages
    ensures currentPage - 1 < |PageLinks(currentPage, totalPages)|
    ensures PageLinks(currentPage, totalPages)[currentPage - 1].active
    ensures forall i :: 0 <= i < |PageLinks(currentPage, totalPages)| && PageLinks(currentPage, totalPages)[i].active ==> i == currentPage - 1
  {
  }

  /** The bar: "previous", the numbered links, "next". */
  function BarOf(currentPage: int, totalPages: int): (bar: PaginationBar)
    ensures bar.previous.inactive <==> currentPage <= 1
    ensures bar.next.inactive <==> currentPage >= totalPages
    ensures bar.previous.inactive ==> bar.previous.target == 1
    ensures !bar.previous.inactive ==> bar.previous.target == currentPage - 1
    ensures bar.next.inactive ==> bar.next.target == totalPages
    ensures !bar.next.inactive ==> bar.next.target == currentPage + 1
    ensures |bar.links| == if totalPages > 0 then totalPages else 0
    ensures forall i :: 0 <= i < |bar.links| ==> bar.links[i].page == i + 1
    ensures forall i :: 0 <= i < |bar.links| ==> 1 <= bar.links[i].page <= totalPages
    ensures forall i :: 0 <= i < |bar.links| ==> (bar.links[i].active <==> bar.links[i].page == currentPage)
  {
    PaginationBar(PreviousControl(currentPage, totalPages), PageLinks(currentPage, totalPages), NextControl(currentPage, totalPages))
  }

  // ---------------------------------------------------------------------------
  // Clicks
  // ---------------------------------------------------------------------------

  /**
   * The page passed to `onPageChange` by a click on a previous/next
   * control. A greyed-out control takes no clicks (its pointer events are
   * disabled), and nothing is called when the caller gave no callback.
   */
  function ControlRequest(c: PageControl, hasPageHandler: bool): (page: Option<int>)
    ensures page.Some? <==> hasPageHandler && !c.inactive
    ensures page.Some? ==> page.value == c.target
  {
    if c.inactive || !hasPageHandler then None else Some(c.target)
  }

  /** A page link passes its own number, even when it is the active one. */
  function LinkRequest(l: PageLink, hasPageHandler: bool): (page: Option<int>)
    ensures page.Some? <==> hasPageHandler
    ensures page.Some? ==> page.value == l.page
  {
    if hasPageHandler then Some(l.page) else None
  }

  /**
   * While the current page lies in [1, totalPages], every page a click on the
   * bar can request lies in [1, totalPages], and previous/next never request
   * the page already shown.
   */
  lemma RequestsStayInRange(currentPage: int, totalPages: int, hasPageHandler: bool)
    requires 1 <= currentPage <= totalPages
    ensures var bar := BarOf(currentPage, totalPages);
      && (ControlRequest(bar.previous, hasPageHandler).Some? ==>
            1 <= ControlRequest(bar.previous, hasPageHandler).value <= totalPages
            && ControlRequest(bar.previous, hasPageHandler).value != currentPage)
      && (ControlRequest(bar.next, hasPageHandler).Some? ==>
            1 <= ControlRequest(bar.next, hasPageHandler).value <= totalPages
            && ControlRequest(bar.next, hasPageHandler).value != currentPage)
      && (forall i :: 0 <= i < |bar.links| && LinkRequest(bar.links[i], hasPageHandler).Some? ==>
            1 <= LinkRequest(bar.links[i], hasPageHandler).value <= totalPages)
  {
  }

  /** At the first page "previous" is inert, and at the last page "next" is. */
  lemma BoundaryControlsRequestNothing(totalPages: int, hasPageHandler: bool)
    requires totalPages > 1
    ensures ControlRequest(PreviousControl(1, totalPages), hasPageHandler).None?
    ensures ControlRequest(NextControl(totalPages, totalPages), hasPageHandler).None?
  {
  }

  /**
   * The clamp does not repair a current page the caller placed past the end:
   * from page 5 of 3, "previous" is clickable and requests page 4.
   */
  lemma PreviousCanOvershootPastTheEnd()
    ensures !PreviousControl(5, 3).inactive
    ensures ControlRequest(PreviousControl(5, 3), true) == Some(4)
  {
  }

  // ---------------------------------------------------------------------------
  // The whole component
  // ---------------------------------------------------------------------------

  /** The component's props; `None` is an omitted (undefined) optional prop. */
  datatype Props = Props(
    loading: bool,
    products: seq<Product>,
    currentPage: Option<int>,
    totalPages: Option<int>,
    hasPageHandler: bool)

  datatype View = View(body: Body, pagination: Option<PaginationBar>)

  function Render(p: Props): (v: View)
    ensures v.body == BodyOf(p.loading, p.products)
    ensures v.pagination.Some? <==> ShowsPagination(p.loading, p.products, p.totalPages.GetOr(DefaultTotalPages))
    ensures v.pagination.Some? ==> v.pagination.value == BarOf(p.currentPage.GetOr(DefaultCurrentPage), p.totalPages.GetOr(DefaultTotalPages))
  {
    var current := p.currentPage.GetOr(DefaultCurrentPage);
    var total := p.totalPages.GetOr(DefaultTotalPages);
    View(BodyOf(p.loading, p.products),
         if ShowsPagination(p.loading, p.products, total) then Some(BarOf(current, total)) else None)
  }

  /** Without a totalPages prop the bar never appears. */
  lemma DefaultTotalPagesHidesPagination(p: Props)
    requires p.totalPages.None?
    ensures Render(p).pagination.None?
  {
  }

  /**
   * Whenever the bar appears with the default current page, "previous" is
   * inert and the first link is the active one.
   */
  lemma DefaultCurrentPageStartsAtFirst(p: Props)
    requires p.currentPage.None?
    requires Render(p).pagination.Some?
    ensures Render(p).pagination.value.previous.inactive
    ensures Render(p).pagination.value.links[0] == PageLink(1, true)
  {
  }
}
