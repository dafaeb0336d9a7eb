/** The seed catalogue of src/lib/data.ts, the store's initial product list.
    Image references are the asset module paths the file imports. */
module Data {
  import opened Types

  const Chessboard := Product(
    "1", "Wooden Handcrafted Chessboard", 120.0, Some("@/assets/product-chessboard.jpg"), "Games",
    Some("A stunning handcrafted chessboard made from solid mahogany and acacia wood. Each piece is hand-carved with meticulous attention to detail, finished with a scratch-resistant matte varnish."),
    [("Material", "Solid Mahogany + Acacia"),
     ("Board Dimensions", "18in \U{D7} 18in"),
     ("Square Size", "2in"),
     ("Pieces", "Full 32-piece set, hand-carved"),
     ("Finish", "Matte varnish, scratch-resistant")],
    true, None)

  const Nameplate := Product(
    "2", "Custom Wooden Nameplate", 35.0, Some("@/assets/product-nameplate.jpg"), "Personalized",
    Some("Beautifully crafted wooden nameplate with custom engraving. Choose between pine or narra wood, with gloss or matte finish options to match your style."),
    [("Material", "Pine or Narra (customer choice)"),
     ("Dimensions", "12in \U{D7} 4in"),
     ("Engraving", "Custom engraving included"),
     ("Finish", "Gloss or Matte")],
    true, None)

  const JewelryBox := Product(
    "3", "Hand-Carved Wooden Jewelry Box", 65.0, Some("@/assets/product-jewelry-box.jpg"), "Storage",
    Some("An elegant hand-carved jewelry box made from premium walnut wood. Features a luxurious velvet interior lining and solid brass hinges for lasting beauty."),
    [("Material", "Walnut"),
     ("Dimensions", "10in \U{D7} 6in \U{D7} 4in"),
     ("Interior", "Velvet lining"),
     ("Hardware", "Brass hinges")],
    true, None)

  /** `initialProducts` */
  const InitialProducts: seq<Product> := [Chessboard, Nameplate, JewelryBox]
}
