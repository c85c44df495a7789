/** The documents of the three Mongoose collections the core reads and
    writes, with the constraints their schemas put on them. */
module Models {
  import opened Common
  import opened Text

  /** `role: { enum: ["user", "admin"], default: "user" }` */
  datatype Role = UserRole | AdminRole

  /** A user document. `password` holds the bcrypt digest; `tokenVersion` is
      `None` for a document stored without the field. */
  datatype UserRecord = UserRecord(
    name: string,
    email: string,
    password: string,
    role: Role,
    tokenVersion: Option<int>)

  /** What the user schema accepts on create and save: the name is trimmed
      by its setter and then must be 2 to 80 characters long. The schema's
      other constraints (a required email, a password of at least 8
      characters) are not checked here: the email always comes from a body
      that passed `isEmail`, and the password is always a bcrypt digest,
      which is 60 characters long. */
  predicate UserSchemaValid(u: UserRecord) {
    Trimmed(u.name) && 2 <= |u.name| <= 80
  }

  /** A stored or claimed token version read as a number, with anything that
      is not a number read as 0 (`typeof v === "number" ? v : 0`, `v ?? 0`). */
  function VersionNumber(v: Option<int>): (n: int)
    ensures v.Some? ==> n == v.value
    ensures v.None? ==> n == 0
  {
    v.GetOr(0)
  }

  /** A product document. `category` has no default; `images` defaults to []. */
  datatype Product = Product(
    title: string,
    slug: string,
    description: string,
    price: int,
    stock: int,
    category: Option<string>,
    images: seq<string>,
    active: bool)

  /** What the product schema accepts on create and save: the title is
      trimmed by its setter and is required (so not empty), so is the slug,
      and price and stock are at least 0. */
  predicate ProductSchemaValid(p: Product) {
    Trimmed(p.title) && p.title != [] && p.slug != [] && p.price >= 0 && p.stock >= 0
  }

  /** One entry of a cart's `items` array. */
  datatype Line = Line(productId: Id, qty: int)
}
