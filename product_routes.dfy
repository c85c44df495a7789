/** The admin product routes (create, update, delete) and the public lookup
    by slug, over the products collection with its unique slug index. */
module ProductRoutes {
  import opened Common
  import opened Text
  import opened Models

  /** The `k`-th slug the probing loops try: the base itself, then
      `base-1`, `base-2`, and so on. */
  function Candidate(base: string, k: nat): string {
    if k == 0 then base else base + "-" + Decimal(k)
  }

  /** The loops never try the same slug twice. */
  lemma CandidateInjective(base: string, i: nat, j: nat)
    ensures Candidate(base, i) == Candidate(base, j) <==> i == j
  {
    var ci, cj := Candidate(base, i), Candidate(base, j);
    if i != 0 && j != 0 {
      assert ci[|base| + 1..] == Decimal(i);
      assert cj[|base| + 1..] == Decimal(j);
      if ci == cj {
        DecimalInjective(i, j);
      }
    } else if i != j {
      assert |ci| != |cj|;
    }
  }

  /** The slugs tried before the `n`-th one. */
  ghost function Tried(base: string, n: nat): set<string> {
    set j: nat | j < n :: Candidate(base, j)
  }

  lemma TriedStep(base: string, n: nat)
    ensures Candidate(base, n) !in Tried(base, n)
    ensures Tried(base, n + 1) == Tried(base, n) + {Candidate(base, n)}
  {
    if Candidate(base, n) in Tried(base, n) {
      var j: nat :| j < n && Candidate(base, j) == Candidate(base, n);
      CandidateInjective(base, j, n);
    }
  }

  /** The index of the first candidate from `k` on that is not taken. It
      exists because only finitely many slugs are taken. */
  ghost function FirstFree(base: string, taken: set<string>, k: nat): (n: nat)
    ensures k <= n
    ensures Candidate(base, n) !in taken
    ensures forall j: nat :: k <= j < n ==> Candidate(base, j) in taken
    decreases taken - Tried(base, k)
  {
    if Candidate(base, k) !in taken then k
    else
      TriedStep(base, k);
      FirstFree(base, taken, k + 1)
  }

  /** Whatever the taken slugs, the first free index is the least one not
      taken: every smaller candidate is taken and the one found is not. */
  lemma {:induction false} FirstFreeIsLeast(base: string, taken: set<string>, n: nat)
    ensures FirstFree(base, taken, 0) == n <==>
              Candidate(base, n) !in taken && forall j: nat :: j < n ==> Candidate(base, j) in taken
  {
    var m := FirstFree(base, taken, 0);
    assert m < n ==> Candidate(base, m) !in taken;
    assert n < m ==> Candidate(base, n) in taken;
  }

  /** A field of a request body, as validation typed it. */
  datatype ProductBody = ProductBody(
    title: Input<string>,
    price: Input<int>,
    stock: Input<int>,
    category: Input<string>,
    description: Input<string>,
    images: Input<seq<string>>,
    active: Input<bool>)

  datatype ProductError = ValidationFailed | NotFound | SchemaRejected

  function ErrorStatus(e: ProductError): int {
    match e
    case ValidationFailed => 400
    case NotFound => 404
    case SchemaRejected => 500
  }

  /** `createRules`: a string title of at least 2 characters once its
      sanitizer trimmed it, a price of at least 0, and optional stock (at
      least 0), category, description, image list and active flag. */
  predicate CreateRulesHold(b: ProductBody) {
    && b.title.Given? && |Trim(b.title.value)| >= 2
    && b.price.Given? && b.price.value >= 0
    && !b.stock.Malformed? && (b.stock.Given? ==> b.stock.value >= 0)
    && !b.category.Malformed? && !b.description.Malformed?
    && !b.images.Malformed? && !b.active.Malformed?
  }

  /** The document `Product.create` is given: the trimmed title, the slug,
      the price, and for each other field the value sent or the default
      (stock 0, description "", images [], active true, no category). */
  function NewProduct(b: ProductBody, slug: string): (p: Product)
    requires b.title.Given? && b.price.Given?
    ensures p.title == Trim(b.title.value) && p.slug == slug && p.price == b.price.value
    ensures p.stock == (if b.stock.Given? then b.stock.value else 0)
    ensures p.description == (if b.description.Given? then b.description.value else "")
    ensures p.images == (if b.images.Given? then b.images.value else [])
    ensures p.active == (if b.active.Given? then b.active.value else true)
    ensures p.category == (if b.category.Given? then Some(Trim(b.category.value)) else None)
  {
    Product(Trim(b.title.value), slug, b.description.GetOr(""), b.price.value, b.stock.GetOr(0),
            if b.category.Given? then Some(Trim(b.category.value)) else None,
            b.images.GetOr([]), b.active.GetOr(true))
  }

  /** `updateRules`: an id of the right form, and optional fields of the
      right types: a title of at least 2 characters (not trimmed first), a
      price and a stock of at least 0. */
  predicate UpdateRulesHold(id: Option<Id>, b: ProductBody) {
    && id.Some?
    && !b.title.Malformed? && (b.title.Given? ==> |b.title.value| >= 2)
    && !b.price.Malformed? && (b.price.Given? ==> b.price.value >= 0)
    && !b.stock.Malformed? && (b.stock.Given? ==> b.stock.value >= 0)
    && !b.category.Malformed? && !b.description.Malformed?
    && !b.images.Malformed? && !b.active.Malformed?
  }

  /** `existing` after `Object.assign(existing, updates)`: each field sent
      replaces the stored one (the title through the schema's trimming
      setter), `slug` is the new slug, and every other field is kept. */
  function Merged(e: Product, b: ProductBody, slug: string): (p: Product)
    ensures p.slug == slug
    ensures p.title == (if b.title.Given? then Trim(b.title.value) else e.title)
    ensures p.price == b.price.GetOr(e.price) && p.stock == b.stock.GetOr(e.stock)
    ensures p.description == b.description.GetOr(e.description)
    ensures p.images == b.images.GetOr(e.images) && p.active == b.active.GetOr(e.active)
    ensures p.category == (if b.category.Given? then Some(b.category.value) else e.category)
  {
    Product(if b.title.Given? then Trim(b.title.value) else e.title,
            slug,
            b.description.GetOr(e.description),
            b.price.GetOr(e.price),
            b.stock.GetOr(e.stock),
            if b.category.Given? then Some(b.category.value) else e.category,
            b.images.GetOr(e.images),
            b.active.GetOr(e.active))
  }

  /** A body that sends nothing leaves the product as it was. */
  lemma EmptyPatchKeepsProduct(e: Product)
    ensures Merged(e, ProductBody(Absent, Absent, Absent, Absent, Absent, Absent, Absent), e.slug) == e
  {
  }

  /** Applying the same patch twice is applying it once. */
  lemma {:induction false} MergeIdempotent(e: Product, b: ProductBody, slug: string)
    ensures Merged(Merged(e, b, slug), b, slug) == Merged(e, b, slug)
  {
    if b.title.Given? {
      TrimIdempotent(b.title.value);
    }
  }

  /** The update regenerates the slug when the title sent is not blank and,
      trimmed, differs from the stored title. */
  predicate Retitled(e: Product, b: ProductBody) {
    b.title.Given? && Trim(b.title.value) != "" && Trim(b.title.value) != e.title
  }

  class ProductStore {
    var products: map<Id, Product>
    var nextId: Id

    /** Every stored product passed the schema, and no two share a slug. */
    ghost predicate Valid()
      reads this
    {
      && (forall id :: id in products ==> id < nextId && ProductSchemaValid(products[id]))
      && (forall a, b :: a in products && b in products && a != b ==> products[a].slug != products[b].slug)
    }

    constructor ()
      ensures Valid() && products == map[]
    {
      products := map[];
      nextId := 0;
    }

    /** `Product.exists({ slug, _id: { $ne: except } })`; with no `except`,
        any product counts. */
    predicate SlugTaken(slug: string, except: Option<Id>)
      reads this
    {
      exists id :: id in products && Some(id) != except && products[id].slug == slug
    }

    /** The slugs of the products other than `except`. */
    ghost function Slugs(except: Option<Id>): (s: set<string>)
      reads this
      ensures forall slug :: slug in s <==> SlugTaken(slug, except)
    {
      set id | id in products && Some(id) != except :: products[id].slug
    }

    /** The probing loop of create and update: try `base`, `base-1`,
        `base-2`, ... until a slug no other product holds. The result is the
        first free candidate. */
    method UniqueSlug(base: string, except: Option<Id>) returns (slug: string)
      ensures slug == Candidate(base, FirstFree(base, Slugs(except), 0))
      ensures !SlugTaken(slug, except)
    {
      ghost var taken := Slugs(except);
      slug := base;
      var suffix := 1;
      while SlugTaken(slug, except)
        invariant suffix >= 1
        invariant slug == Candidate(base, suffix - 1)
        invariant FirstFree(base, taken, suffix - 1) == FirstFree(base, taken, 0)
        decreases taken - Tried(base, suffix - 1)
      {
        TriedStep(base, suffix - 1);
        slug := base + "-" + Decimal(suffix);
        suffix := suffix + 1;
      }
    }

    /** POST /api/products. After the rules pass, the slug is the first free
        candidate for `slugify(title)` and the product is stored with the
        defaults filled in; the schema refuses it (500) exactly when
        `slugify` returns "", since the slug is then empty. The unique index is never violated. */
    method Create(b: ProductBody, slugify: string -> string) returns (r: Result<Id, ProductError>)
      requires Valid()
      modifies this
      ensures Valid()
      ensures !CreateRulesHold(b) ==> r == Err(ValidationFailed) && products == old(products)
      ensures CreateRulesHold(b) ==>
                var base := slugify(Trim(b.title.value));
                var p := NewProduct(b, Candidate(base, FirstFree(base, old(Slugs(None)), 0)));
                && (r.Ok? <==> base != "")
                && (r.Ok? ==> r.value !in old(products) && products == old(products)[r.value := p])
                && (r.Err? ==> r == Err(SchemaRejected) && products == old(products))
    {
      if !CreateRulesHold(b) {
        return Err(ValidationFailed);
      }
      var base := slugify(Trim(b.title.value));
      var slug := UniqueSlug(base, None);
      var p := NewProduct(b, slug);
      TrimIdempotent(b.title.value);
      assert base == "" ==> !SlugTaken("", None);
      if !ProductSchemaValid(p) {
        return Err(SchemaRejected);
      }
      var id := nextId;
      products := products[id := p];
      nextId := nextId + 1;
      r := Ok(id);
    }

    /** PUT /api/products/:id. Each field sent replaces the stored one and
        the others are kept; the slug is regenerated, skipping the product's
        own, only when the title changes. A title that trims to nothing, or
        a slug that comes out empty, is refused by the schema (500). */
    method Update(id: Option<Id>, b: ProductBody, slugify: string -> string)
      returns (r: Result<Product, ProductError>)
      requires Valid()
      modifies this
      ensures Valid()
      ensures !UpdateRulesHold(id, b) ==> r == Err(ValidationFailed) && products == old(products)
      ensures UpdateRulesHold(id, b) && id.value !in old(products) ==>
                r == Err(NotFound) && products == old(products)
      ensures UpdateRulesHold(id, b) && id.value in old(products) ==>
                var e := old(products)[id.value];
                var slug := if Retitled(e, b)
                            then var base := slugify(b.title.value);
                                 Candidate(base, FirstFree(base, old(Slugs(id)), 0))
                            else e.slug;
                var p := Merged(e, b, slug);
                && (r.Ok? <==> ProductSchemaValid(p))
                && (r.Ok? ==> r.value == p && products == old(products)[id.value := p])
                && (r.Err? ==> r == Err(SchemaRejected) && products == old(products))
    {
      if !UpdateRulesHold(id, b) {
        return Err(ValidationFailed);
      }
      if id.value !in products {
        return Err(NotFound);
      }
      var e := products[id.value];
      var slug := e.slug;
      if Retitled(e, b) {
        slug := UniqueSlug(slugify(b.title.value), id);
      }
      var p := Merged(e, b, slug);
      if b.title.Given? {
        TrimIdempotent(b.title.value);
      }
      if !ProductSchemaValid(p) {
        return Err(SchemaRejected);
      }
      products := products[id.value := p];
      r := Ok(p);
    }

    /** DELETE /api/products/:id: the product is removed, or 404 when there
        is none. */
    method Delete(id: Option<Id>) returns (r: Result<Id, ProductError>)
      requires Valid()
      modifies this
      ensures Valid()
      ensures id.None? ==> r == Err(ValidationFailed) && products == old(products)
      ensures id.Some? && id.value !in old(products) ==> r == Err(NotFound) && products == old(products)
      ensures id.Some? && id.value in old(products) ==>
                r == Ok(id.value) && products == old(products) - {id.value}
    {
      if id.None? {
        return Err(ValidationFailed);
      }
      if id.value !in products {
        return Err(NotFound);
      }
      products := products - {id.value};
      r := Ok(id.value);
    }

    /** GET /api/products/:slug: the active product with the trimmed slug,
        if any; an inactive one is as good as missing. */
    method FindBySlug(raw: string) returns (r: Option<Id>)
      requires Valid()
      ensures r.Some? ==> r.value in products && products[r.value].slug == Trim(raw)
                          && products[r.value].active
      ensures r.None? <==>
                !exists id :: id in products && products[id].slug == Trim(raw) && products[id].active
      ensures r.Some? ==> forall id :: id in products && products[id].slug == Trim(raw) ==> id == r.value
    {
      var slug := Trim(raw);
      if exists id :: id in products && products[id].slug == slug && products[id].active {
        var id :| id in products && products[id].slug == slug && products[id].active;
        r := Some(id);
      } else {
        r := None;
      }
    }
  }
}
