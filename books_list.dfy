/**
 * The book grid (components/BooksList.jsx): what it renders for a list and a
 * loading flag — placeholder cards while loading, a hint when there is
 * nothing to show, otherwise one card per book with a stock badge, an edit
 * link and a delete button.
 */
module BooksList {
  import opened Common
  import opened UseFilterSort

  /** The three badges a card can carry. */
  datatype StockLevel = InStock | LowStock | OutOfStock

  /** The card's badge: more than 10 copies is in stock, 1 to 10 is low, anything else is out. */
  function StockLevelOf(qty: int): StockLevel {
    if qty > 10 then InStock else if qty > 0 then LowStock else OutOfStock
  }

  function StockLabel(level: StockLevel): string {
    match level
    case InStock => "In Stock"
    case LowStock => "Low Stock"
    case OutOfStock => "Out of Stock"
  }

  /** The colour class of the badge's dot. */
  function DotClass(level: StockLevel): string {
    match level
    case InStock => "bg-green-400"
    case LowStock => "bg-yellow-400"
    case OutOfStock => "bg-red-400"
  }

  /** The colour class of the badge's text. */
  function TextClass(level: StockLevel): string {
    match level
    case InStock => "text-green-600"
    case LowStock => "text-yellow-600"
    case OutOfStock => "text-red-600"
  }

  /** The label and both colours always come from one level, so a card never mixes them. */
  lemma BadgeIsConsistent(level: StockLevel, other: StockLevel)
    ensures StockLabel(level) == StockLabel(other) <==> level == other
    ensures DotClass(level) == DotClass(other) <==> level == other
    ensures TextClass(level) == TextClass(other) <==> level == other
  {
  }

  /**
   * The badge and the stock filter draw their lines differently: for a
   * non-negative quantity other than 10 they agree, but a book with exactly
   * 10 copies passes the "in stock" filter while its badge says "Low Stock".
   */
  lemma BadgeVersusStockFilter(qty: int)
    ensures qty >= 0 && qty != 10 ==>
              (StockLevelOf(qty) == InStock <==> InStockBand(qty)) &&
              (StockLevelOf(qty) == LowStock <==> LowStockBand(qty)) &&
              (StockLevelOf(qty) == OutOfStock <==> OutOfStockBand(qty))
    ensures InStockBand(10) && StockLevelOf(10) == LowStock
  {
  }

  /** One rendered card. */
  datatype Card = Card(book: Book, badge: StockLevel, editPath: string, deleteDisabled: bool, deleteSpinner: bool)

  const EditPathPrefix := "/edit-book/"

  /**
   * The card of a book: its badge follows the stock rule, its edit link
   * carries the id, and the delete button is disabled and spinning exactly
   * while the list is loading.
   */
  function CardOf(b: Book, loading: bool): (c: Card)
    ensures c.book == b && c.badge == StockLevelOf(b.qty)
    ensures c.editPath == EditPathPrefix + IntText(b.id)
    ensures c.deleteDisabled == loading && c.deleteSpinner == loading
  {
    Card(b, StockLevelOf(b.qty), EditPathPrefix + IntText(b.id), loading, loading)
  }

  /** The route parameter a card's edit link carries. */
  function EditRouteId(c: Card): string {
    if |c.editPath| >= |EditPathPrefix| then c.editPath[|EditPathPrefix|..] else ""
  }

  /** The edit link leads to a page whose parsed route id is the book's id. */
  lemma EditLinkRoundTrip(b: Book, loading: bool)
    ensures ParseInt(EditRouteId(CardOf(b, loading))) == Some(b.id)
  {
    var c := CardOf(b, loading);
    assert EditRouteId(c) == IntText(b.id);
    ParseIntText(b.id);
  }

  /** The three things the component can render. */
  datatype View = Skeletons(count: nat) | EmptyMessage | CardGrid(cards: seq<Card>)

  /**
   * What the component renders: 8 placeholders while loading, the hint for an
   * empty list, otherwise one card per book in the order given.
   */
  function Render(books: seq<Book>, loading: bool): (v: View)
    ensures loading ==> v == Skeletons(8)
    ensures !loading && books == [] ==> v == EmptyMessage
    ensures !loading && books != [] ==> v.CardGrid?
    ensures v.CardGrid? ==> |v.cards| == |books| && forall i :: 0 <= i < |books| ==> v.cards[i] == CardOf(books[i], false)
  {
    if loading then Skeletons(8)
    else if |books| == 0 then EmptyMessage
    else CardGrid(seq(|books|, i requires 0 <= i < |books| => CardOf(books[i], loading)))
  }

  /**
   * Cards are only drawn when the list is not loading, so every drawn delete
   * button is enabled and the button's spinner branch is never shown.
   */
  lemma NoCardShowsSpinner(books: seq<Book>, loading: bool)
    ensures Render(books, loading).CardGrid? ==>
              forall c :: c in Render(books, loading).cards ==> !c.deleteSpinner && !c.deleteDisabled
  {
  }
}
