/** The stock-dependent parts of a product card
    (`src/components/ProductCard.tsx`): the two image badges and the add
    button. */
module ProductCard {
  import opened Types
  import AdminPanel

  datatype CardControls = CardControls(
    lowStockBadge: bool,
    outOfStockBadge: bool,
    addDisabled: bool,
    addLabel: string)

  /** The badges and the add button of the card for `p`. */
  function Controls(p: Product): (c: CardControls)
    ensures c.lowStockBadge <==> 0 < p.stock < 10
    ensures c.outOfStockBadge <==> p.stock == 0
    ensures !(c.lowStockBadge && c.outOfStockBadge)
    ensures p.stock < 0 ==> !c.lowStockBadge && !c.outOfStockBadge
    ensures c.addDisabled <==> c.outOfStockBadge
    ensures c.addLabel == "Out of Stock" <==> c.addDisabled
    ensures c.addLabel == "Out of Stock" || c.addLabel == "Add to Cart"
  {
    CardControls(
      p.stock < 10 && p.stock > 0,
      p.stock == 0,
      p.stock == 0,
      if p.stock == 0 then "Out of Stock" else "Add to Cart")
  }

  /** The card and the admin products table agree: the out-of-stock badge
      is the red cell, and the low-stock badge is the orange cell for
      positive stock. Negative stock is orange in the table and has no
      badge on the card. */
  lemma CardAgreesWithAdminTable(p: Product)
    ensures Controls(p).outOfStockBadge <==> AdminPanel.StockBadge(p.stock) == AdminPanel.Red
    ensures Controls(p).lowStockBadge <==> AdminPanel.StockBadge(p.stock) == AdminPanel.Orange && p.stock > 0
    ensures p.stock < 0 ==> AdminPanel.StockBadge(p.stock) == AdminPanel.Orange
                            && !Controls(p).lowStockBadge
  {
  }
}
