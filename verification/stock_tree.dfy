/** The stock items kept in a binary tree, and the listing `show_stock`
    writes of them. */
module StockTree {
  import opened Wrappers
  import opened Decimal

  /** One stock item: its ID, the stock left and its price. The item's
      reader count and semaphore are never used and are left out. */
  datatype Item = Item(id: int, leftStock: int, price: int)

  /** A tree node. A child pointer that may be NULL is an `Option<Tree>`;
      a `Tree` itself is never NULL. */
  datatype Tree = Node(item: Item, left: Option<Tree>, right: Option<Tree>)

  /** The line `sprintf(str, "%d %d %d\n", ID, left_stock, price)` writes. */
  function StockLine(it: Item): string {
    FormatInt(it.id) + " " + FormatInt(it.leftStock) + " " + FormatInt(it.price) + "\n"
  }

  /** What `show_stock(nd, buf)` appends to `buf`: the node's own line, then
      the listing of its left child, then that of its right child, each
      child visited only when it is not NULL. The node itself must not be
      NULL: the function reads its children unconditionally. */
  function ShowStock(t: Tree): string {
    StockLine(t.item)
    + (match t.left case Some(l) => ShowStock(l) case None => "")
    + (match t.right case Some(r) => ShowStock(r) case None => "")
  }

  /** The items of a possibly empty subtree in pre-order: the node, then its
      left subtree, then its right subtree. */
  function PreOrder(t: Option<Tree>): seq<Item> {
    match t
    case None => []
    case Some(n) => [n.item] + PreOrder(n.left) + PreOrder(n.right)
  }

  /** The listing of a sequence of items: one line per item, in the order given. */
  function Lines(items: seq<Item>): string {
    Join(Rendered(items))
  }

  /** The line of each item. */
  function Rendered(items: seq<Item>): (parts: seq<string>)
    ensures |parts| == |items|
  {
    if items == [] then [] else [StockLine(items[0])] + Rendered(items[1..])
  }

  /** The strings one after another, as `strcat` leaves them in a buffer. */
  function Join(parts: seq<string>): string {
    if parts == [] then "" else parts[0] + Join(parts[1..])
  }

  /** Reads one listing line back: three `%d` numbers and the newline. */
  function ScanLine(s: string): (r: Option<(Item, string)>)
    ensures r.Some? ==> |r.value.1| < |s|
  {
    match ScanInt(s)
    case None => None
    case Some((id, r1)) =>
      match ScanInt(r1)
      case None => None
      case Some((stock, r2)) =>
        match ScanInt(r2)
        case None => None
        case Some((price, r3)) =>
          if r3 != [] && r3[0] == '\n' then Some((Item(id, stock, price), r3[1..])) else None
  }

  /** Reads a whole listing back, line by line. */
  function ScanListing(s: string): Option<seq<Item>>
    decreases |s|
  {
    if s == [] then Some([])
    else
      match ScanLine(s)
      case None => None
      case Some((it, rest)) =>
        match ScanListing(rest)
        case None => None
        case Some(items) => Some([it] + items)
  }

  lemma {:induction false} JoinAppend(p: seq<string>, q: seq<string>)
    ensures Join(p + q) == Join(p) + Join(q)
  {
    if p == [] {
      assert p + q == q;
    } else {
      assert (p + q)[0] == p[0];
      assert (p + q)[1..] == p[1..] + q;
      JoinAppend(p[1..], q);
    }
  }

  lemma {:induction false} RenderedAppend(a: seq<Item>, b: seq<Item>)
    ensures Rendered(a + b) == Rendered(a) + Rendered(b)
  {
    if a == [] {
      assert a + b == b;
    } else {
      assert (a + b)[0] == a[0];
      assert (a + b)[1..] == a[1..] + b;
      RenderedAppend(a[1..], b);
    }
  }

  lemma {:induction false} RenderedAt(items: seq<Item>, i: nat)
    requires i < |items|
    ensures Rendered(items)[i] == StockLine(items[i])
  {
    if i > 0 {
      RenderedAt(items[1..], i - 1);
    }
  }

  lemma LinesAppend(a: seq<Item>, b: seq<Item>)
    ensures Lines(a + b) == Lines(a) + Lines(b)
  {
    RenderedAppend(a, b);
    JoinAppend(Rendered(a), Rendered(b));
  }

  /** The listing holds one line per node, in pre-order. */
  lemma {:induction false} ShowStockIsPreOrder(t: Tree)
    ensures ShowStock(t) == Lines(PreOrder(Some(t)))
  {
    var l := PreOrder(t.left);
    var r := PreOrder(t.right);
    match t.left {
      case Some(n) => ShowStockIsPreOrder(n);
      case None =>
    }
    match t.right {
      case Some(n) => ShowStockIsPreOrder(n);
      case None =>
    }
    LinesAppend([t.item] + l, r);
    LinesAppend([t.item], l);
  }

  /** A listing line reads back as the item it was printed from. */
  lemma ScanStockLine(it: Item, rest: string)
    ensures ScanLine(StockLine(it) + rest) == Some((it, rest))
  {
    var r3 := "\n" + rest;
    var r2 := " " + FormatInt(it.price) + r3;
    var r1 := " " + FormatInt(it.leftStock) + r2;
    assert StockLine(it) + rest == FormatInt(it.id) + r1;
    ScanFormatInt(it.id, r1);
    ScanBlankFormatInt(it.leftStock, r2);
    ScanBlankFormatInt(it.price, r3);
  }

  /** Strings that each read back as one item, joined, read back as those items. */
  lemma {:induction false} ScanJoined(items: seq<Item>, parts: seq<string>)
    requires |parts| == |items|
    requires forall i, rest :: 0 <= i < |items| ==>
               ScanLine(parts[i] + rest) == Some((items[i], rest))
    ensures ScanListing(Join(parts)) == Some(items)
  {
    if items != [] {
      var rest := Join(parts[1..]);
      assert ScanLine(parts[0] + rest) == Some((items[0], rest));
      ScanJoined(items[1..], parts[1..]);
      ScanListingStep(parts[0] + rest, items[0], rest, items[1..]);
      assert [items[0]] + items[1..] == items;
    }
  }

  /** Reading the lines of a sequence of items gives back that sequence. */
  lemma ScanLines(items: seq<Item>)
    ensures ScanListing(Lines(items)) == Some(items)
  {
    var parts := Rendered(items);
    forall i, rest | 0 <= i < |items|
      ensures ScanLine(parts[i] + rest) == Some((items[i], rest))
    {
      RenderedAt(items, i);
      ScanStockLine(items[i], rest);
    }
    ScanJoined(items, parts);
  }

  /** One step of reading a listing: a line, then the rest of the listing. */
  lemma ScanListingStep(s: string, it: Item, rest: string, items: seq<Item>)
    requires ScanLine(s) == Some((it, rest))
    requires ScanListing(rest) == Some(items)
    ensures ScanListing(s) == Some([it] + items)
  {
  }

  /** The listing loses nothing: it reads back as the tree's items, in
      pre-order. */
  lemma ShowStockRoundTrip(t: Tree)
    ensures ScanListing(ShowStock(t)) == Some(PreOrder(Some(t)))
  {
    ShowStockIsPreOrder(t);
    ScanLines(PreOrder(Some(t)));
  }

  /** Pre-order is not key order: a search tree whose left child holds the
      smaller ID lists the root first. */
  lemma ListingIsNotKeyOrder()
    ensures var t := Node(Item(2, 5, 100), Some(Node(Item(1, 3, 50), None, None)), None);
      && t.left.value.item.id < t.item.id
      && ShowStock(t) == "2 5 100\n1 3 50\n"
  {
    assert FormatInt(100) == "100" && FormatInt(50) == "50";
    var leaf := Node(Item(1, 3, 50), None, None);
    assert ShowStock(leaf) == "1 3 50\n";
  }
}
