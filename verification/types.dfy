/** The records of the storefront (`src/types/index.ts`). Prices are exact
    integers in the smallest currency unit and stock is a plain integer. */
module Types {

  datatype Product = Product(
    id: string,
    name: string,
    description: string,
    price: int,
    image: string,
    category_id: string,
    stock: int,
    created_at: string)

  /** `Omit<Product, 'id' | 'created_at'>`: what the admin form submits. */
  datatype ProductData = ProductData(
    name: string,
    description: string,
    price: int,
    image: string,
    category_id: string,
    stock: int)

  datatype Category = Category(
    id: string,
    name: string,
    description: string,
    created_at: string)

  datatype CartItem = CartItem(product: Product, quantity: int)

  datatype User = User(
    id: string,
    email: string,
    full_name: string,
    is_admin: bool)

  /** The form fields of a product, without its identity. */
  function DataOf(p: Product): ProductData
  {
    ProductData(p.name, p.description, p.price, p.image, p.category_id, p.stock)
  }

  /** `{ ...data, id, created_at }`: a product built from form fields plus
      an identity. */
  function WithIdentity(data: ProductData, id: string, created_at: string): (p: Product)
    ensures DataOf(p) == data
    ensures p.id == id && p.created_at == created_at
  {
    Product(id, data.name, data.description, data.price, data.image,
            data.category_id, data.stock, created_at)
  }

  /** A product is its identity together with its form fields. */
  lemma WithIdentityOfDataOf(p: Product)
    ensures WithIdentity(DataOf(p), p.id, p.created_at) == p
  {
  }
}
