/** The front end's menu records (frontend/src/types.ts) and its seed menu (frontend/constants.ts). */
module Catalog {

  /** A menu entry; `price` is in cents. */
  datatype MenuItem = MenuItem(
    id: string,
    name: string,
    description: string,
    price: int,
    image: string,
    category: string,
    popular: bool)

  /** A cart entry: the menu entry spread into the record, plus its quantity. */
  datatype CartItem = CartItem(item: MenuItem, quantity: int)

  /** The five categories, in the order the menu page lists them. */
  const Categories: seq<string> := ["Burgers", "Hot Dogs", "Acompanhamentos", "Bebidas", "Sobremesas"]

  /** The seed menu, with descriptions and image addresses left empty. */
  const MenuItems: seq<MenuItem> := [
    MenuItem("b1", "Mega Bacon Monster", "", 3890, "", "Burgers", true),
    MenuItem("b2", "Cl\U{00E1}ssico Sabor", "", 2450, "", "Burgers", false),
    MenuItem("h1", "Hot Dog Especial", "", 1800, "", "Hot Dogs", true),
    MenuItem("a1", "Batata R\U{00FA}stica", "", 1590, "", "Acompanhamentos", false),
    MenuItem("d1", "Coca-Cola 350ml", "", 650, "", "Bebidas", false),
    MenuItem("s1", "Petit G\U{00E2}teau", "", 2200, "", "Sobremesas", false)
  ]
}
