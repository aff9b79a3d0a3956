/**
 * Specification of the order workflow as functions over the catalog and the
 * stock counts: how each requested line is resolved and checked, what the
 * creation writes into the stock of each size variant, and what cancellation
 * gives back. The imperative workflow in module Views is proved against these.
 */
module OrderSpec {
  import opened Wrappers
  import opened Models
  import opened Serializers

  /** A catalog product as the workflow sees it: its name and its current unit price. */
  datatype Product = Product(name: string, price: Cents)

  datatype CreateError =
    | ValidationFailed(fields: set<FieldName>)
    | EmptyItems
    | ProductNotFound(productId: ProductId)
    | SizeNotFound(productName: string, sizeName: string)
    | InsufficientStock(productName: string, sizeName: string, available: int)

  /**
   * A line that passed the checks, waiting to be written: the size variant it
   * resolved to (if any) together with the stock count read for it, the
   * quantity and the product's price at that moment.
   */
  datatype PendingItem = PendingItem(product: ProductId, size: Option<SizeKey>, stockRead: int, quantity: int, price: Cents)

  /** The item a pending line becomes. */
  function ItemOf(p: PendingItem): OrderItem {
    OrderItem(p.product, p.size, p.quantity, p.price)
  }

  /** The size variant a line names: only a non-empty size name names one. */
  function LineKey(line: ItemLine): (k: Option<SizeKey>)
    ensures k.Some? <==> line.size.Some? && line.size.value != ""
    ensures k.Some? ==> k.value.product == line.productId && k.value.name == line.size.value
  {
    if line.size.Some? && line.size.value != "" then Some(SizeKey(line.productId, line.size.value)) else None
  }

  // -------------------------------------------------------- first pass

  /**
   * Checks one line: the product must exist; a named size variant must exist for
   * that product and hold at least the requested quantity. A line naming no
   * variant is not checked against any stock.
   */
  function ResolveLine(products: map<ProductId, Product>, stock: map<SizeKey, int>, line: ItemLine): (r: Result<PendingItem, CreateError>)
    ensures r.Ok? <==>
              line.productId in products &&
              (LineKey(line).Some? ==> LineKey(line).value in stock && stock[LineKey(line).value] >= line.quantity)
    ensures r.Ok? ==> ItemOf(r.value) == OrderItem(line.productId, LineKey(line), line.quantity, products[line.productId].price)
    ensures r.Ok? && r.value.size.Some? ==> r.value.stockRead == stock[r.value.size.value]
    ensures line.productId !in products ==> r == Err(ProductNotFound(line.productId))
    ensures line.productId in products && LineKey(line).Some? && LineKey(line).value !in stock ==>
              r == Err(SizeNotFound(products[line.productId].name, line.size.value))
    ensures line.productId in products && LineKey(line).Some? && LineKey(line).value in stock &&
            stock[LineKey(line).value] < line.quantity ==>
              r == Err(InsufficientStock(products[line.productId].name, line.size.value, stock[LineKey(line).value]))
  {
    if line.productId !in products then Err(ProductNotFound(line.productId))
    else
      var product := products[line.productId];
      match LineKey(line)
      case None => Ok(PendingItem(line.productId, None, 0, line.quantity, product.price))
      case Some(key) =>
        if key !in stock then Err(SizeNotFound(product.name, key.name))
        else if stock[key] < line.quantity then Err(InsufficientStock(product.name, key.name, stock[key]))
        else Ok(PendingItem(line.productId, Some(key), stock[key], line.quantity, product.price))
  }

  /**
   * The first pass over the lines, in input order: either every line resolves,
   * or the result is the error of the first line that does not.
   */
  function Resolve(products: map<ProductId, Product>, stock: map<SizeKey, int>, lines: seq<ItemLine>): (r: Result<seq<PendingItem>, CreateError>)
    ensures r.Ok? ==> |r.value| == |lines|
    ensures r.Ok? ==> forall i :: 0 <= i < |lines| ==> ResolveLine(products, stock, lines[i]) == Ok(r.value[i])
    ensures r.Err? ==> exists i :: 0 <= i < |lines| && ResolveLine(products, stock, lines[i]) == Err(r.error) &&
                                   forall j :: 0 <= j < i ==> ResolveLine(products, stock, lines[j]).Ok?
  {
    if lines == [] then Ok([])
    else
      var n := |lines| - 1;
      assert forall i :: 0 <= i < n ==> lines[..n][i] == lines[i];
      match Resolve(products, stock, lines[..n])
      case Err(e) => Err(e)
      case Ok(ps) =>
        match ResolveLine(products, stock, lines[n])
        case Err(e) => Err(e)
        case Ok(p) => Ok(ps + [p])
  }

  /**
   * The first pass fails with the error of line i when every line before it
   * resolves and line i does not.
   */
  lemma FirstFailureDecides(products: map<ProductId, Product>, stock: map<SizeKey, int>, lines: seq<ItemLine>, i: nat, e: CreateError)
    requires i < |lines| && ResolveLine(products, stock, lines[i]) == Err(e)
    requires forall j :: 0 <= j < i ==> ResolveLine(products, stock, lines[j]).Ok?
    ensures Resolve(products, stock, lines) == Err(e)
  {
    var r := Resolve(products, stock, lines);
    if r.Err? {
      var i' :| 0 <= i' < |lines| && ResolveLine(products, stock, lines[i']) == Err(r.error) &&
                forall j :: 0 <= j < i' ==> ResolveLine(products, stock, lines[j]).Ok?;
      assert !(i' < i) && !(i < i');
    }
  }

  // ------------------------------------------------------ stock writes

  /**
   * The stock after creation, as the second pass writes it: each line naming a
   * variant sets that variant to the count read in the first pass (the count
   * before the request) minus the line's quantity. Later lines overwrite
   * earlier ones; no variant is added or removed.
   */
  function StockAfterCreate(orig: map<SizeKey, int>, lines: seq<ItemLine>): (s: map<SizeKey, int>)
    ensures s.Keys == orig.Keys
  {
    if lines == [] then orig
    else
      var n := |lines| - 1;
      var s := StockAfterCreate(orig, lines[..n]);
      match LineKey(lines[n])
      case None => s
      case Some(k) => if k in orig then s[k := orig[k] - lines[n].quantity] else s
  }

  /** A variant that no line names keeps its count. */
  lemma {:induction false} UnnamedVariantUntouched(orig: map<SizeKey, int>, lines: seq<ItemLine>, k: SizeKey)
    requires k in orig
    requires forall i :: 0 <= i < |lines| ==> LineKey(lines[i]) != Some(k)
    ensures StockAfterCreate(orig, lines)[k] == orig[k]
  {
    if lines != [] {
      var n := |lines| - 1;
      UnnamedVariantUntouched(orig, lines[..n], k);
    }
  }

  /**
   * The last line naming a variant decides its count: the count before the
   * request minus that line's quantity, whatever earlier lines asked for.
   */
  lemma {:induction false} LastWriteWins(orig: map<SizeKey, int>, lines: seq<ItemLine>, j: nat, k: SizeKey)
    requires j < |lines| && LineKey(lines[j]) == Some(k) && k in orig
    requires forall i :: j < i < |lines| ==> LineKey(lines[i]) != Some(k)
    ensures StockAfterCreate(orig, lines)[k] == orig[k] - lines[j].quantity
  {
    var n := |lines| - 1;
    if j < n {
      LastWriteWins(orig, lines[..n], j, k);
    }
  }

  /**
   * A variant named by exactly one line of a request that resolves ends at its
   * count before the request minus that line's quantity, which is not negative.
   */
  lemma SingleLineVariant(products: map<ProductId, Product>, orig: map<SizeKey, int>, lines: seq<ItemLine>, j: nat, k: SizeKey)
    requires Resolve(products, orig, lines).Ok?
    requires j < |lines| && LineKey(lines[j]) == Some(k)
    requires forall i :: 0 <= i < |lines| && i != j ==> LineKey(lines[i]) != Some(k)
    ensures k in orig
    ensures StockAfterCreate(orig, lines)[k] == orig[k] - lines[j].quantity >= 0
  {
    assert ResolveLine(products, orig, lines[j]).Ok?;
    LastWriteWins(orig, lines, j, k);
  }

  /**
   * When the request resolves against the stock it is applied to, no count the
   * request writes is negative: every non-negative count stays non-negative.
   */
  lemma {:induction false} CreateKeepsStockNonNegative(products: map<ProductId, Product>, orig: map<SizeKey, int>, lines: seq<ItemLine>, k: SizeKey)
    requires Resolve(products, orig, lines).Ok?
    requires k in orig && orig[k] >= 0
    ensures StockAfterCreate(orig, lines)[k] >= 0
  {
    WrittenCountsNonNegative(products, orig, lines, k);
  }

  lemma {:induction false} WrittenCountsNonNegative(products: map<ProductId, Product>, orig: map<SizeKey, int>, lines: seq<ItemLine>, k: SizeKey)
    requires forall i :: 0 <= i < |lines| ==> ResolveLine(products, orig, lines[i]).Ok?
    requires k in orig && orig[k] >= 0
    ensures StockAfterCreate(orig, lines)[k] >= 0
  {
    if lines != [] {
      var n := |lines| - 1;
      WrittenCountsNonNegative(products, orig, lines[..n], k);
      assert ResolveLine(products, orig, lines[n]).Ok?;
    }
  }

  // ---------------------------------------------------------- restock

  /**
   * The stock after cancellation: each item naming a variant adds its quantity
   * to that variant's current count, so quantities on the same variant add up.
   */
  function Restock(stock: map<SizeKey, int>, items: seq<OrderItem>): (s: map<SizeKey, int>)
    ensures s.Keys == stock.Keys
  {
    if items == [] then stock
    else
      var n := |items| - 1;
      var s := Restock(stock, items[..n]);
      match items[n].size
      case None => s
      case Some(k) => if k in s then s[k := s[k] + items[n].quantity] else s
  }

  /** The total quantity the items hold of variant k. */
  function QuantityOn(items: seq<OrderItem>, k: SizeKey): int {
    if items == [] then 0
    else QuantityOn(items[..|items| - 1], k) + (if items[|items| - 1].size == Some(k) then items[|items| - 1].quantity else 0)
  }

  /** With positive quantities, the total held of any variant is not negative. */
  lemma {:induction false} QuantityOnNonNegative(items: seq<OrderItem>, k: SizeKey)
    requires forall i :: 0 <= i < |items| ==> items[i].quantity >= 1
    ensures QuantityOn(items, k) >= 0
  {
    if items != [] {
      QuantityOnNonNegative(items[..|items| - 1], k);
    }
  }

  /** The total quantity the lines request of variant k. */
  function LinesQuantityOn(lines: seq<ItemLine>, k: SizeKey): int {
    if lines == [] then 0
    else LinesQuantityOn(lines[..|lines| - 1], k) + (if LineKey(lines[|lines| - 1]) == Some(k) then lines[|lines| - 1].quantity else 0)
  }

  /** Cancellation gives every variant back the whole quantity the items hold of it. */
  lemma {:induction false} RestockAddsQuantities(stock: map<SizeKey, int>, items: seq<OrderItem>, k: SizeKey)
    requires k in stock
    ensures Restock(stock, items)[k] == stock[k] + QuantityOn(items, k)
  {
    if items != [] {
      RestockAddsQuantities(stock, items[..|items| - 1], k);
    }
  }

  /** The items of an order follow its lines: one per line, same variant and quantity. */
  predicate ItemsFollowLines(items: seq<OrderItem>, lines: seq<ItemLine>) {
    |items| == |lines| &&
    forall i :: 0 <= i < |lines| ==> items[i].size == LineKey(lines[i]) && items[i].quantity == lines[i].quantity
  }

  lemma {:induction false} QuantityOnFollowsLines(items: seq<OrderItem>, lines: seq<ItemLine>, k: SizeKey)
    requires ItemsFollowLines(items, lines)
    ensures QuantityOn(items, k) == LinesQuantityOn(lines, k)
  {
    if lines != [] {
      var n := |lines| - 1;
      QuantityOnFollowsLines(items[..n], lines[..n], k);
    }
  }

  /** No size variant is named by two lines. */
  predicate AtMostOneLinePerVariant(lines: seq<ItemLine>) {
    forall i, j :: 0 <= i < j < |lines| && LineKey(lines[j]).Some? ==> LineKey(lines[i]) != LineKey(lines[j])
  }

  lemma {:induction false} UnnamedQuantityIsZero(lines: seq<ItemLine>, k: SizeKey)
    requires forall i :: 0 <= i < |lines| ==> LineKey(lines[i]) != Some(k)
    ensures LinesQuantityOn(lines, k) == 0
  {
    if lines != [] {
      UnnamedQuantityIsZero(lines[..|lines| - 1], k);
    }
  }

  /** With no variant named twice, creation takes exactly the requested quantity from each variant. */
  lemma {:induction false} DistinctLinesSubtractExactly(orig: map<SizeKey, int>, lines: seq<ItemLine>, k: SizeKey)
    requires k in orig && AtMostOneLinePerVariant(lines)
    ensures StockAfterCreate(orig, lines)[k] == orig[k] - LinesQuantityOn(lines, k)
  {
    if lines != [] {
      var n := |lines| - 1;
      assert AtMostOneLinePerVariant(lines[..n]);
      DistinctLinesSubtractExactly(orig, lines[..n], k);
      if LineKey(lines[n]) == Some(k) {
        UnnamedQuantityIsZero(lines[..n], k);
      }
    }
  }

  /**
   * With no variant named twice, cancelling an order right after creating it
   * brings every stock count back to where it was.
   */
  lemma CancelUndoesCreate(orig: map<SizeKey, int>, lines: seq<ItemLine>, items: seq<OrderItem>)
    requires AtMostOneLinePerVariant(lines) && ItemsFollowLines(items, lines)
    ensures Restock(StockAfterCreate(orig, lines), items) == orig
  {
    var after := StockAfterCreate(orig, lines);
    forall k | k in orig ensures Restock(after, items)[k] == orig[k] {
      DistinctLinesSubtractExactly(orig, lines, k);
      RestockAddsQuantities(after, items, k);
      QuantityOnFollowsLines(items, lines, k);
    }
  }

  // ---------------------------------------- two lines on one variant

  const ExampleProducts: map<ProductId, Product> := map[1 := Product("Sneaker", 1000)]
  const ExampleVariant: SizeKey := SizeKey(1, "42")
  const ExampleStock: map<SizeKey, int> := map[ExampleVariant := 5]
  const ExampleLines: seq<ItemLine> := [ItemLine(1, Some("42"), 3), ItemLine(1, Some("42"), 3)]
  const ExampleItems: seq<OrderItem> := [OrderItem(1, Some(ExampleVariant), 3, 1000), OrderItem(1, Some(ExampleVariant), 3, 1000)]

  /**
   * Two lines of 3 on a variant holding 5 both pass the check, so 6 units are
   * ordered out of 5; the variant is left at 2, and cancelling the order then
   * raises it to 8.
   */
  lemma DuplicateVariantOversells()
    ensures Resolve(ExampleProducts, ExampleStock, ExampleLines).Ok?
    ensures LinesQuantityOn(ExampleLines, ExampleVariant) == 6 > ExampleStock[ExampleVariant]
    ensures StockAfterCreate(ExampleStock, ExampleLines)[ExampleVariant] == 2
    ensures ItemsFollowLines(ExampleItems, ExampleLines)
    ensures Restock(StockAfterCreate(ExampleStock, ExampleLines), ExampleItems)[ExampleVariant] == 8
  {
    var lines := ExampleLines;
    assert lines[..1] == [lines[0]] && lines[..1][..0] == [];
    assert ResolveLine(ExampleProducts, ExampleStock, lines[0]).Ok?;
    assert LinesQuantityOn(lines[..1], ExampleVariant) == 3;
    LastWriteWins(ExampleStock, lines, 1, ExampleVariant);
    var after := StockAfterCreate(ExampleStock, lines);
    RestockAddsQuantities(after, ExampleItems, ExampleVariant);
    assert ExampleItems[..1] == [ExampleItems[0]] && ExampleItems[..1][..0] == [];
    assert QuantityOn(ExampleItems[..1], ExampleVariant) == 3;
  }

  // -------------------------------------- reserving against running stock

  /**
   * Creation as evidently intended: each line is checked against the stock left
   * by the earlier lines of the same request, and its quantity is taken from it.
   */
  function ReserveRunning(products: map<ProductId, Product>, stock: map<SizeKey, int>, lines: seq<ItemLine>): (r: Result<map<SizeKey, int>, CreateError>)
    ensures r.Ok? ==> r.value.Keys == stock.Keys
  {
    if lines == [] then Ok(stock)
    else
      var n := |lines| - 1;
      match ReserveRunning(products, stock, lines[..n])
      case Err(e) => Err(e)
      case Ok(s) =>
        match ResolveLine(products, s, lines[n])
        case Err(e) => Err(e)
        case Ok(p) => Ok(Take(s, p))
  }

  /** The stock once a checked line has taken its quantity from the variant it names. */
  function Take(s: map<SizeKey, int>, p: PendingItem): (t: map<SizeKey, int>)
    requires p.size.Some? ==> p.size.value in s
    ensures t.Keys == s.Keys
  {
    if p.size.Some? then s[p.size.value := s[p.size.value] - p.quantity] else s
  }

  /** One more line of a reservation, given what the earlier lines have left. */
  lemma ReserveRunningStep(products: map<ProductId, Product>, stock: map<SizeKey, int>, lines: seq<ItemLine>, i: nat, left: map<SizeKey, int>)
    requires i < |lines| && ReserveRunning(products, stock, lines[..i]) == Ok(left)
    ensures ResolveLine(products, left, lines[i]).Err? ==>
              ReserveRunning(products, stock, lines[..i + 1]) == Err(ResolveLine(products, left, lines[i]).error)
    ensures ResolveLine(products, left, lines[i]).Ok? ==>
              ReserveRunning(products, stock, lines[..i + 1]) == Ok(Take(left, ResolveLine(products, left, lines[i]).value))
  {
    assert lines[..i + 1][..i] == lines[..i] && lines[..i + 1][i] == lines[i];
  }

  /** Once a prefix of the lines fails, the whole reservation fails with that error. */
  lemma {:induction false} ReserveRunningStopsAtFailure(products: map<ProductId, Product>, stock: map<SizeKey, int>, lines: seq<ItemLine>, j: nat)
    requires j <= |lines| && ReserveRunning(products, stock, lines[..j]).Err?
    ensures ReserveRunning(products, stock, lines) == ReserveRunning(products, stock, lines[..j])
    decreases |lines|
  {
    if j == |lines| {
      assert lines[..j] == lines;
    } else {
      var n := |lines| - 1;
      assert lines[..n][..j] == lines[..j];
      ReserveRunningStopsAtFailure(products, stock, lines[..n], j);
    }
  }

  /**
   * A reservation takes from each variant exactly the total quantity the lines
   * request of it, and leaves every variant it touches non-negative.
   */
  lemma {:induction false} ReserveRunningExact(products: map<ProductId, Product>, stock: map<SizeKey, int>, lines: seq<ItemLine>, k: SizeKey)
    requires ReserveRunning(products, stock, lines).Ok? && k in stock
    ensures ReserveRunning(products, stock, lines).value[k] == stock[k] - LinesQuantityOn(lines, k)
    ensures LinesQuantityOn(lines, k) != 0 ==> ReserveRunning(products, stock, lines).value[k] >= 0
  {
    if lines != [] {
      var n := |lines| - 1;
      ReserveRunningExact(products, stock, lines[..n], k);
      var s := ReserveRunning(products, stock, lines[..n]).value;
      if LineKey(lines[n]) == Some(k) {
        assert ResolveLine(products, s, lines[n]).Ok?;
      }
    }
  }

  /**
   * When no size variant is named by two lines, reserving against the running
   * stock accepts what the two passes as written accept, and leaves the same
   * stock.
   */
  lemma {:induction false} ReserveAgreesWhenDistinct(products: map<ProductId, Product>, stock: map<SizeKey, int>, lines: seq<ItemLine>)
    requires AtMostOneLinePerVariant(lines) && Resolve(products, stock, lines).Ok?
    ensures ReserveRunning(products, stock, lines) == Ok(StockAfterCreate(stock, lines))
  {
    if lines != [] {
      var n := |lines| - 1;
      var prefix := lines[..n];
      DistinctPrefix(lines, n);
      assert Resolve(products, stock, prefix).Ok?;
      ReserveAgreesWhenDistinct(products, stock, prefix);
      CheckUnaffectedByOtherVariants(products, stock, prefix, lines[n]);
      var p := ResolveLine(products, stock, lines[n]).value;
      assert ReserveRunning(products, stock, lines) == Ok(Take(StockAfterCreate(stock, prefix), p));
    }
  }

  /**
   * When no size variant is named by two lines, reserving against the running
   * stock rejects what the two passes as written reject, with the same error.
   */
  lemma {:induction false} ReserveFailsAlikeWhenDistinct(products: map<ProductId, Product>, stock: map<SizeKey, int>, lines: seq<ItemLine>)
    requires AtMostOneLinePerVariant(lines) && Resolve(products, stock, lines).Err?
    ensures ReserveRunning(products, stock, lines) == Err(Resolve(products, stock, lines).error)
  {
    var n := |lines| - 1;
    var prefix := lines[..n];
    DistinctPrefix(lines, n);
    if Resolve(products, stock, prefix).Err? {
      ReserveFailsAlikeWhenDistinct(products, stock, prefix);
    } else {
      ReserveAgreesWhenDistinct(products, stock, prefix);
      CheckUnaffectedByOtherVariants(products, stock, prefix, lines[n]);
    }
  }

  /** Every prefix of lines naming distinct variants names distinct variants. */
  lemma DistinctPrefix(lines: seq<ItemLine>, n: nat)
    requires n <= |lines| && AtMostOneLinePerVariant(lines)
    ensures AtMostOneLinePerVariant(lines[..n])
    ensures n < |lines| && LineKey(lines[n]).Some? ==> forall i :: 0 <= i < n ==> LineKey(lines[..n][i]) != LineKey(lines[n])
  {
    assert forall i :: 0 <= i < n ==> lines[..n][i] == lines[i];
  }

  /** A line sees the same count after the writes of lines naming other variants. */
  lemma CheckUnaffectedByOtherVariants(products: map<ProductId, Product>, stock: map<SizeKey, int>, prefix: seq<ItemLine>, line: ItemLine)
    requires LineKey(line).Some? ==> forall i :: 0 <= i < |prefix| ==> LineKey(prefix[i]) != LineKey(line)
    ensures ResolveLine(products, StockAfterCreate(stock, prefix), line) == ResolveLine(products, stock, line)
  {
    if LineKey(line).Some? && LineKey(line).value in stock {
      UnnamedVariantUntouched(stock, prefix, LineKey(line).value);
    }
  }

  /** Cancelling a reserved order always restores every stock count, duplicates or not. */
  lemma ReservedThenCancelledRestores(products: map<ProductId, Product>, stock: map<SizeKey, int>, lines: seq<ItemLine>, items: seq<OrderItem>)
    requires ReserveRunning(products, stock, lines).Ok? && ItemsFollowLines(items, lines)
    ensures Restock(ReserveRunning(products, stock, lines).value, items) == stock
  {
    var after := ReserveRunning(products, stock, lines).value;
    forall k | k in stock ensures Restock(after, items)[k] == stock[k] {
      ReserveRunningExact(products, stock, lines, k);
      RestockAddsQuantities(after, items, k);
      QuantityOnFollowsLines(items, lines, k);
    }
  }

  /** Reserving against the running stock rejects the second line of the example above. */
  lemma DuplicateVariantRejectedWhenReserving()
    ensures ReserveRunning(ExampleProducts, ExampleStock, ExampleLines) == Err(InsufficientStock("Sneaker", "42", 2))
  {
    var lines := ExampleLines;
    assert lines[..1] == [lines[0]] && lines[..1][..0] == [];
    assert ResolveLine(ExampleProducts, ExampleStock, lines[..1][0]).Ok?;
    assert ReserveRunning(ExampleProducts, ExampleStock, lines[..1][..0]) == Ok(ExampleStock);
    var first := ReserveRunning(ExampleProducts, ExampleStock, lines[..1]);
    assert first.Ok? && ExampleVariant in first.value && first.value[ExampleVariant] == 2;
    assert ResolveLine(ExampleProducts, first.value, lines[1]) == Err(InsufficientStock("Sneaker", "42", 2));
  }
}
