/** The dashboard's derived data: the low-stock list and warning, the five
    best-selling items, the status counts, the quarter tick labels and the
    sector chart pivot. */
module Dashboard {
  import opened Text
  import opened Seqs
  import opened Records

  // ---------------------------------------------------------------------
  // Low stock.

  predicate WithinTwiceReorder(item: InventoryItem) {
    item.quantity <= item.reorderPoint * 2
  }

  predicate AtOrBelowReorder(item: InventoryItem) {
    item.quantity <= item.reorderPoint
  }

  /** The low-stock table: items at or below twice their reorder point,
      in inventory order. */
  function LowStockItems(items: seq<InventoryItem>): (r: seq<InventoryItem>)
    ensures IsSubsequence(r, items)
    ensures forall i :: 0 <= i < |r| ==> r[i].quantity <= 2 * r[i].reorderPoint
    ensures forall i :: 0 <= i < |items| && items[i].quantity <= 2 * items[i].reorderPoint ==>
              items[i] in r
    ensures forall x :: multiset(r)[x] == if WithinTwiceReorder(x) then multiset(items)[x] else 0
  {
    FilterIsSubsequence(items, WithinTwiceReorder);
    FilterCount(items, WithinTwiceReorder);
    Filter(items, WithinTwiceReorder)
  }

  /** Closing the welcome popup opens the warning exactly when some item
      is at or below its reorder point. */
  function ShowWarningAfterWelcome(items: seq<InventoryItem>): (show: bool)
    ensures show <==> exists i :: 0 <= i < |items| && items[i].quantity <= items[i].reorderPoint
  {
    var low := Filter(items, AtOrBelowReorder);
    assert |low| > 0 ==> exists i :: 0 <= i < |items| && items[i].quantity <= items[i].reorderPoint by {
      if |low| > 0 {
        var i :| 0 <= i < |items| && items[i] == low[0];
      }
    }
    |low| > 0
  }

  /** The warning's test is stricter than the table's: with non-negative
      reorder points every item that triggers it is listed. */
  lemma WarningItemsAreListed(items: seq<InventoryItem>, i: int)
    requires 0 <= i < |items| && items[i].reorderPoint >= 0
    requires items[i].quantity <= items[i].reorderPoint
    ensures items[i] in LowStockItems(items)
  {
  }

  // ---------------------------------------------------------------------
  // Best sellers.

  /** `acc.find(i => i.sku === sku)` as a position. */
  function FindSku(acc: seq<Transaction>, sku: string): (r: Option<nat>)
    ensures r.Some? ==> r.value < |acc| && acc[r.value].sku == sku
    ensures r.None? ==> forall j :: 0 <= j < |acc| ==> acc[j].sku != sku
  {
    if |acc| == 0 then None
    else if acc[0].sku == sku then Some(0)
    else match FindSku(acc[1..], sku)
      case None => None
      case Some(k) => Some(k + 1)
  }

  /** One step of the grouping `reduce`: add to the row of the same SKU,
      or append a copy of the transaction. */
  function AddSale(acc: seq<Transaction>, t: Transaction): seq<Transaction> {
    match FindSku(acc, t.sku)
    case Some(i) => acc[i := acc[i].(quantity := acc[i].quantity + t.quantity)]
    case None => acc + [t]
  }

  function Group(sales: seq<Transaction>): seq<Transaction> {
    if |sales| == 0 then []
    else AddSale(Group(sales[..|sales| - 1]), sales[|sales| - 1])
  }

  /** The total quantity sold of one SKU. */
  function SkuTotal(sales: seq<Transaction>, sku: string): int {
    if |sales| == 0 then 0
    else
      SkuTotal(sales[..|sales| - 1], sku)
        + (if sales[|sales| - 1].sku == sku then sales[|sales| - 1].quantity else 0)
  }

  lemma {:induction false} SkuTotalAbsent(sales: seq<Transaction>, sku: string)
    requires forall j :: 0 <= j < |sales| ==> sales[j].sku != sku
    ensures SkuTotal(sales, sku) == 0
    decreases |sales|
  {
    if |sales| > 0 {
      SkuTotalAbsent(sales[..|sales| - 1], sku);
    }
  }

  predicate DistinctSkus(s: seq<Transaction>) {
    forall i, j :: 0 <= i < j < |s| ==> s[i].sku != s[j].sku
  }

  predicate HasSku(s: seq<Transaction>, sku: string) {
    exists i :: 0 <= i < |s| && s[i].sku == sku
  }

  /** `sales[j]` is the first transaction of its SKU. */
  predicate FirstOfSku(sales: seq<Transaction>, j: int)
    requires 0 <= j < |sales|
  {
    forall k :: 0 <= k < j ==> sales[k].sku != sales[j].sku
  }

  /** `a` and `b` agree on every field but the quantity. */
  predicate SameButQuantity(a: Transaction, b: Transaction) {
    a.(quantity := 0) == b.(quantity := 0)
  }

  /** `row` is a copy of the first transaction of its SKU, quantity aside. */
  predicate CopiesFirstOfSku(sales: seq<Transaction>, row: Transaction) {
    exists j :: 0 <= j < |sales| && FirstOfSku(sales, j) && SameButQuantity(row, sales[j])
  }

  /** Grouping keeps the SKUs distinct. */
  lemma {:induction false} GroupDistinct(sales: seq<Transaction>)
    ensures DistinctSkus(Group(sales))
    decreases |sales|
  {
    if |sales| > 0 {
      GroupDistinct(sales[..|sales| - 1]);
    }
  }

  /** One grouping step adds the sale's SKU to the SKUs present. */
  lemma AddSaleSkus(acc: seq<Transaction>, t: Transaction, sku: string)
    ensures HasSku(AddSale(acc, t), sku) <==> HasSku(acc, sku) || sku == t.sku
  {
    var r := AddSale(acc, t);
    match FindSku(acc, t.sku)
    case Some(k) =>
      assert forall i :: 0 <= i < |acc| ==> r[i].sku == acc[i].sku;
      if sku == t.sku {
        assert r[k].sku == sku;
      }
    case None =>
      assert r == acc + [t];
      assert r[|acc|].sku == t.sku;
      if HasSku(acc, sku) {
        var i :| 0 <= i < |acc| && acc[i].sku == sku;
        assert r[i].sku == sku;
      }
  }

  /** Grouping has a row for exactly the SKUs sold. */
  lemma {:induction false} GroupCoverage(sales: seq<Transaction>)
    ensures forall j :: 0 <= j < |sales| ==> HasSku(Group(sales), sales[j].sku)
    ensures forall i :: 0 <= i < |Group(sales)| ==> HasSku(sales, Group(sales)[i].sku)
    decreases |sales|
  {
    if |sales| > 0 {
      var n := |sales| - 1;
      var prefix := sales[..n];
      var t := sales[n];
      var g' := Group(prefix);
      var g := Group(sales);
      GroupCoverage(prefix);
      forall j | 0 <= j < |sales|
        ensures HasSku(g, sales[j].sku)
      {
        AddSaleSkus(g', t, sales[j].sku);
        if j < n {
          assert prefix[j] == sales[j];
        }
      }
      forall i | 0 <= i < |g|
        ensures HasSku(sales, g[i].sku)
      {
        AddSaleSkus(g', t, g[i].sku);
        assert HasSku(g, g[i].sku);
        if g[i].sku == t.sku {
          assert sales[n].sku == g[i].sku;
        } else {
          var k :| 0 <= k < |g'| && g'[k].sku == g[i].sku;
          var j :| 0 <= j < |prefix| && prefix[j].sku == g'[k].sku;
          assert sales[j].sku == g[i].sku;
        }
      }
    }
  }

  /** Every row carries its SKU's total quantity. */
  lemma {:induction false} GroupTotals(sales: seq<Transaction>)
    ensures forall i :: 0 <= i < |Group(sales)| ==>
              Group(sales)[i].quantity == SkuTotal(sales, Group(sales)[i].sku)
    decreases |sales|
  {
    if |sales| > 0 {
      var n := |sales| - 1;
      var prefix := sales[..n];
      var t := sales[n];
      var g' := Group(prefix);
      var g := Group(sales);
      GroupTotals(prefix);
      GroupDistinct(prefix);
      match FindSku(g', t.sku)
      case Some(k) =>
        assert g == g'[k := g'[k].(quantity := g'[k].quantity + t.quantity)];
        forall i | 0 <= i < |g|
          ensures g[i].quantity == SkuTotal(sales, g[i].sku)
        {
          if i != k {
            assert g'[i].sku != g'[k].sku;
          }
        }
      case None =>
        assert g == g' + [t];
        GroupCoverage(prefix);
        forall j | 0 <= j < n
          ensures prefix[j].sku != t.sku
        {
          assert HasSku(g', prefix[j].sku);
        }
        SkuTotalAbsent(prefix, t.sku);
    }
  }

  lemma CopiesFirstOfSkuExtend(sales: seq<Transaction>, row: Transaction, row': Transaction)
    requires |sales| > 0 && CopiesFirstOfSku(sales[..|sales| - 1], row) && SameButQuantity(row', row)
    ensures CopiesFirstOfSku(sales, row')
  {
    var prefix := sales[..|sales| - 1];
    var j :| 0 <= j < |prefix| && FirstOfSku(prefix, j) && SameButQuantity(row, prefix[j]);
    assert prefix[j] == sales[j];
    assert FirstOfSku(sales, j);
  }

  /** A sale whose SKU has no row yet is the first sale of that SKU. */
  lemma NewSkuIsFirst(sales: seq<Transaction>)
    requires |sales| > 0
    requires FindSku(Group(sales[..|sales| - 1]), sales[|sales| - 1].sku).None?
    ensures FirstOfSku(sales, |sales| - 1)
  {
    var n := |sales| - 1;
    var prefix := sales[..n];
    GroupCoverage(prefix);
    forall j | 0 <= j < n
      ensures sales[j].sku != sales[n].sku
    {
      assert prefix[j] == sales[j];
      assert HasSku(Group(prefix), prefix[j].sku);
    }
  }

  /** Rows of the prefix that copy a first sale still do after one more
      sale, whatever its quantity did to them. */
  lemma OriginsExtend(sales: seq<Transaction>, g': seq<Transaction>, g: seq<Transaction>)
    requires |sales| > 0 && |g'| <= |g|
    requires forall i :: 0 <= i < |g'| ==> CopiesFirstOfSku(sales[..|sales| - 1], g'[i])
    requires forall i :: 0 <= i < |g'| ==> SameButQuantity(g[i], g'[i])
    ensures forall i :: 0 <= i < |g'| ==> CopiesFirstOfSku(sales, g[i])
  {
    forall i | 0 <= i < |g'|
      ensures CopiesFirstOfSku(sales, g[i])
    {
      CopiesFirstOfSkuExtend(sales, g'[i], g[i]);
    }
  }

  /** A grouping step changes no existing row except in its quantity, and
      appends the sale when its SKU is new. */
  lemma AddSaleRows(acc: seq<Transaction>, t: Transaction)
    ensures |acc| <= |AddSale(acc, t)|
    ensures forall i :: 0 <= i < |acc| ==> SameButQuantity(AddSale(acc, t)[i], acc[i])
    ensures FindSku(acc, t.sku).None? ==> AddSale(acc, t) == acc + [t]
  {
  }

  /** Every row is a copy of the first transaction of its SKU. */
  lemma {:induction false} GroupOrigins(sales: seq<Transaction>)
    ensures forall i :: 0 <= i < |Group(sales)| ==> CopiesFirstOfSku(sales, Group(sales)[i])
    decreases |sales|
  {
    if |sales| > 0 {
      var n := |sales| - 1;
      var t := sales[n];
      var g' := Group(sales[..n]);
      var g := Group(sales);
      assert g == AddSale(g', t);
      GroupOrigins(sales[..n]);
      AddSaleRows(g', t);
      OriginsExtend(sales, g', g);
      if FindSku(g', t.sku).None? {
        NewSkuIsFirst(sales);
        assert g[|g'|] == sales[n];
      }
    }
  }

  /** The comparator `b.quantity - a.quantity`: larger quantities first. */
  predicate QuantityGe(a: Transaction, b: Transaction) {
    a.quantity >= b.quantity
  }

  /** The five best-selling items. */
  function TopSellingItems(sales: seq<Transaction>): seq<Transaction> {
    Take(SortBy(Group(sales), QuantityGe), 5)
  }

  /** At most five rows, in non-increasing quantity. */
  lemma TopSellingItemsOrdered(sales: seq<Transaction>)
    ensures |TopSellingItems(sales)| <= 5
    ensures SortedBy(TopSellingItems(sales), QuantityGe)
  {
    assert TotalPreorder(QuantityGe);
    SortBySorted(Group(sales), QuantityGe);
  }

  /** Every element of a permutation of `a` is an element of `a`. */
  lemma PermutationMembers(a: seq<Transaction>, b: seq<Transaction>)
    requires multiset(a) == multiset(b)
    ensures forall i :: 0 <= i < |b| ==> b[i] in a
  {
    forall i | 0 <= i < |b|
      ensures b[i] in a
    {
      assert b[i] in multiset(a);
    }
  }

  /** Reordering rows keeps their SKUs distinct. */
  lemma PermutationDistinctSkus(a: seq<Transaction>, b: seq<Transaction>)
    requires multiset(a) == multiset(b) && DistinctSkus(a)
    ensures DistinctSkus(b)
  {
    assert NoDuplicates(a);
    PermutationNoDuplicates(a, b);
    PermutationMembers(a, b);
    forall i, j | 0 <= i < j < |b|
      ensures b[i].sku != b[j].sku
    {
      var x :| 0 <= x < |a| && a[x] == b[i];
      var y :| 0 <= y < |a| && a[y] == b[j];
    }
  }

  /** The sorted grouping still has one row per SKU, each a grouped row. */
  lemma SortedGroupRows(sales: seq<Transaction>)
    ensures DistinctSkus(SortBy(Group(sales), QuantityGe))
    ensures forall i :: 0 <= i < |SortBy(Group(sales), QuantityGe)| ==>
              SortBy(Group(sales), QuantityGe)[i] in Group(sales)
  {
    GroupDistinct(sales);
    PermutationDistinctSkus(Group(sales), SortBy(Group(sales), QuantityGe));
    PermutationMembers(Group(sales), SortBy(Group(sales), QuantityGe));
  }

  /** One row per SKU, each with that SKU's total quantity. */
  lemma TopSellingItemsTotals(sales: seq<Transaction>)
    ensures DistinctSkus(TopSellingItems(sales))
    ensures forall i :: 0 <= i < |TopSellingItems(sales)| ==>
              TopSellingItems(sales)[i].quantity == SkuTotal(sales, TopSellingItems(sales)[i].sku)
  {
    var g := Group(sales);
    var s := SortBy(g, QuantityGe);
    var r := TopSellingItems(sales);
    SortedGroupRows(sales);
    assert r == s[..|r|];
    assert DistinctSkus(r) by {
      forall i, j | 0 <= i < j < |r|
        ensures r[i].sku != r[j].sku
      {
        assert r[i] == s[i] && r[j] == s[j];
      }
    }
    GroupTotals(sales);
    forall i | 0 <= i < |r|
      ensures r[i].quantity == SkuTotal(sales, r[i].sku)
    {
      assert r[i] == s[i];
      var a :| 0 <= a < |g| && g[a] == s[i];
    }
  }

  /** Every shown row is the first sale of a sold SKU, quantity aside: the
      table's item name and SKU come from that sale. */
  lemma TopSellingItemsOrigins(sales: seq<Transaction>)
    ensures forall i :: 0 <= i < |TopSellingItems(sales)| ==>
              CopiesFirstOfSku(sales, TopSellingItems(sales)[i])
  {
    var g := Group(sales);
    var s := SortBy(g, QuantityGe);
    var r := TopSellingItems(sales);
    SortedGroupRows(sales);
    GroupOrigins(sales);
    assert r == s[..|r|];
    forall i | 0 <= i < |r|
      ensures CopiesFirstOfSku(sales, r[i])
    {
      assert r[i] == s[i];
      var a :| 0 <= a < |g| && g[a] == s[i];
    }
  }

  /** The grouped row of a sold SKU, and its total. */
  lemma GroupRowOf(sales: seq<Transaction>, j: int) returns (a: nat)
    requires 0 <= j < |sales|
    ensures a < |Group(sales)| && Group(sales)[a].sku == sales[j].sku
    ensures Group(sales)[a].quantity == SkuTotal(sales, sales[j].sku)
  {
    GroupCoverage(sales);
    GroupTotals(sales);
    assert HasSku(Group(sales), sales[j].sku);
    a :| 0 <= a < |Group(sales)| && Group(sales)[a].sku == sales[j].sku;
  }

  /** A SKU missing from the table sold no more than each of five rows. */
  lemma TopSellingItemsOmitted(sales: seq<Transaction>, j: int)
    requires 0 <= j < |sales| && !HasSku(TopSellingItems(sales), sales[j].sku)
    ensures |TopSellingItems(sales)| == 5
    ensures forall i :: 0 <= i < 5 ==> TopSellingItems(sales)[i].quantity >= SkuTotal(sales, sales[j].sku)
  {
    var g := Group(sales);
    var s := SortBy(g, QuantityGe);
    var r := TopSellingItems(sales);
    var a := GroupRowOf(sales, j);
    assert g[a] in multiset(s);
    var p :| 0 <= p < |s| && s[p] == g[a];
    assert r == s[..|r|];
    assert p >= |r| by {
      forall q | 0 <= q < |r|
        ensures s[q] != s[p]
      {
        assert r[q] == s[q];
        assert r[q].sku != sales[j].sku;
      }
    }
    assert TotalPreorder(QuantityGe);
    SortBySorted(g, QuantityGe);
    forall i | 0 <= i < |r|
      ensures r[i].quantity >= s[p].quantity
    {
      assert r[i] == s[i];
      assert QuantityGe(s[i], s[p]);
    }
  }

  // ---------------------------------------------------------------------
  // Status counts.

  datatype StatusCounts = StatusCounts(pending: nat, packed: nat, shipped: nat, delivered: nat)

  function CountStatus(sales: seq<Transaction>, status: string): nat {
    if |sales| == 0 then 0
    else CountStatus(sales[..|sales| - 1], status) + (if sales[|sales| - 1].status == status then 1 else 0)
  }

  predicate KnownStatus(status: string) {
    status == "pending" || status == "packed" || status == "shipped" || status == "delivered"
  }

  /** The status tally `reduce`: each counter starts at zero and goes up
      by one per transaction with that status. */
  method SalesActivity(sales: seq<Transaction>) returns (c: StatusCounts)
    ensures c.pending == CountStatus(sales, "pending")
    ensures c.packed == CountStatus(sales, "packed")
    ensures c.shipped == CountStatus(sales, "shipped")
    ensures c.delivered == CountStatus(sales, "delivered")
    ensures c.pending + c.packed + c.shipped + c.delivered <= |sales|
    ensures (forall j :: 0 <= j < |sales| ==> KnownStatus(sales[j].status)) ==>
              c.pending + c.packed + c.shipped + c.delivered == |sales|
  {
    c := StatusCounts(0, 0, 0, 0);
    var i := 0;
    while i < |sales|
      invariant 0 <= i <= |sales|
      invariant c.pending == CountStatus(sales[..i], "pending")
      invariant c.packed == CountStatus(sales[..i], "packed")
      invariant c.shipped == CountStatus(sales[..i], "shipped")
      invariant c.delivered == CountStatus(sales[..i], "delivered")
      invariant c.pending + c.packed + c.shipped + c.delivered <= i
      invariant (forall j :: 0 <= j < i ==> KnownStatus(sales[j].status)) ==>
                  c.pending + c.packed + c.shipped + c.delivered == i
    {
      assert sales[..i + 1][..i] == sales[..i];
      var st := sales[i].status;
      if st == "pending" {
        c := c.(pending := c.pending + 1);
      } else if st == "packed" {
        c := c.(packed := c.packed + 1);
      } else if st == "shipped" {
        c := c.(shipped := c.shipped + 1);
      } else if st == "delivered" {
        c := c.(delivered := c.delivered + 1);
      }
      i := i + 1;
    }
    assert sales[..i] == sales;
  }

  // ---------------------------------------------------------------------
  // Quarter tick labels.

  /** `s.slice(2)`. */
  function DropTwo(s: string): string {
    if |s| >= 2 then s[2..] else ""
  }

  /** The first field of `s.split(" ")`. */
  function FirstField(s: string): string {
    match IndexOf(s, ' ')
    case None => s
    case Some(k) => s[..k]
  }

  /** The quarter axis formatter: `"YYYY Qn"` becomes `"Qn 'YY"`; an empty
      label stays empty; a label without a space has no quarter field and
      JavaScript prints `undefined` in its place. */
  function FormatQuarter(value: string): string {
    if value == "" then ""
    else match IndexOf(value, ' ')
      case None => "undefined '" + DropTwo(value)
      case Some(k) => FirstField(value[k + 1..]) + " '" + DropTwo(value[..k])
  }

  lemma FormatQuarterLabel(year: string, quarter: string)
    requires ' ' !in year && ' ' !in quarter
    ensures FormatQuarter(year + " " + quarter) == quarter + " '" + DropTwo(year)
    ensures FormatQuarter("") == ""
  {
    var v := year + " " + quarter;
    assert v[|year|] == ' ';
    assert v[..|year|] == year;
    assert IndexOf(v, ' ') == Some(|year|);
    assert v[|year| + 1..] == quarter;
  }

  // ---------------------------------------------------------------------
  // Sector chart pivot.

  datatype QuarterValue = QuarterValue(quarter: string, value: real)
  datatype Sector = Sector(category: string, trend: seq<QuarterValue>)
  datatype Cell = QuarterCell(quarter: string) | ValueCell(value: real)

  /** Sector `j` contributes to row `i` under its category. */
  predicate Contributes(sectors: seq<Sector>, j: int, i: int, key: string)
    requires 0 <= j < |sectors|
  {
    sectors[j].category == key && i < |sectors[j].trend|
  }

  /** Some sector before `upto` contributes to row `i` under `key`. */
  predicate ContributedBefore(sectors: seq<Sector>, i: int, key: string, upto: int)
    requires upto <= |sectors|
  {
    exists j :: 0 <= j < upto && Contributes(sectors, j, i, key)
  }

  lemma ContributedBeforeStep(sectors: seq<Sector>, i: int, upto: int)
    requires 0 < upto <= |sectors|
    ensures forall key :: ContributedBefore(sectors, i, key, upto) <==>
              ContributedBefore(sectors, i, key, upto - 1) || Contributes(sectors, upto - 1, i, key)
  {
    forall key
      ensures ContributedBefore(sectors, i, key, upto) <==>
              ContributedBefore(sectors, i, key, upto - 1) || Contributes(sectors, upto - 1, i, key)
    {
      if ContributedBefore(sectors, i, key, upto) {
        var j :| 0 <= j < upto && Contributes(sectors, j, i, key);
      }
    }
  }

  /** No sector after `j` (and before `upto`) contributes to row `i`
      under the category of sector `j`. */
  predicate LastContributor(sectors: seq<Sector>, j: int, i: int, upto: int)
    requires 0 <= j < |sectors| && upto <= |sectors|
  {
    forall j' :: j < j' < upto ==> !Contributes(sectors, j', i, sectors[j].category)
  }

  /** Row `i` after the `forEach` has visited the first `upto` sectors. */
  function PivotRow(sectors: seq<Sector>, i: nat, upto: nat): (row: map<string, Cell>)
    requires 0 < |sectors| && i < |sectors[0].trend| && upto <= |sectors|
    ensures forall key :: key in row <==>
              key == "quarter" || ContributedBefore(sectors, i, key, upto)
  {
    if upto == 0 then map["quarter" := QuarterCell(sectors[0].trend[i].quarter)]
    else
      var row := PivotRow(sectors, i, upto - 1);
      var s := sectors[upto - 1];
      ContributedBeforeStep(sectors, i, upto);
      if i < |s.trend| then row[s.category := ValueCell(s.trend[i].value)] else row
  }

  /** A category holds the value of the last sector of that category
      that has a point at index `i`. */
  lemma {:induction false} PivotRowLastWriter(sectors: seq<Sector>, i: nat, upto: nat, j: int)
    requires 0 < |sectors| && i < |sectors[0].trend| && upto <= |sectors|
    requires 0 <= j < upto && Contributes(sectors, j, i, sectors[j].category)
    requires LastContributor(sectors, j, i, upto)
    ensures sectors[j].category in PivotRow(sectors, i, upto)
    ensures PivotRow(sectors, i, upto)[sectors[j].category] == ValueCell(sectors[j].trend[i].value)
    decreases upto
  {
    var s := sectors[upto - 1];
    var before := PivotRow(sectors, i, upto - 1);
    assert PivotRow(sectors, i, upto) == (if i < |s.trend| then before[s.category := ValueCell(s.trend[i].value)] else before);
    if j < upto - 1 {
      assert !Contributes(sectors, upto - 1, i, sectors[j].category);
      PivotRowLastWriter(sectors, i, upto - 1, j);
    }
  }

  /** The "quarter" key holds the first sector's quarter unless a sector
      of category "quarter" overwrote it. */
  lemma {:induction false} PivotRowQuarter(sectors: seq<Sector>, i: nat, upto: nat)
    requires 0 < |sectors| && i < |sectors[0].trend| && upto <= |sectors|
    requires forall j :: 0 <= j < upto ==> !Contributes(sectors, j, i, "quarter")
    ensures "quarter" in PivotRow(sectors, i, upto)
    ensures PivotRow(sectors, i, upto)["quarter"] == QuarterCell(sectors[0].trend[i].quarter)
    decreases upto
  {
    if upto > 0 {
      PivotRowQuarter(sectors, i, upto - 1);
      var s := sectors[upto - 1];
      var before := PivotRow(sectors, i, upto - 1);
      assert !Contributes(sectors, upto - 1, i, "quarter");
      assert PivotRow(sectors, i, upto) == (if i < |s.trend| then before[s.category := ValueCell(s.trend[i].value)] else before);
    }
  }

  /** The chart rows: one per point of the first sector, each holding the
      quarter and, for every sector that has a point at that index, its
      value under the sector's category (a later sector of the same
      category overwrites an earlier one). */
  function Pivot(sectors: seq<Sector>): (rows: seq<map<string, Cell>>)
    ensures |sectors| == 0 ==> rows == []
    ensures |sectors| > 0 ==> |rows| == |sectors[0].trend|
    ensures forall i :: 0 <= i < |rows| ==> rows[i] == PivotRow(sectors, i, |sectors|)
  {
    if |sectors| == 0 then []
    else seq(|sectors[0].trend|, i requires 0 <= i < |sectors[0].trend| => PivotRow(sectors, i, |sectors|))
  }
}
