/** Values shared by every part of the storefront configuration model.

    The configuration object of config.js is plain JSON; here it is a record
    whose top-level keys are each optional, so that the object `{}` (no keys
    at all) can be told apart from a populated one. JavaScript's falsy string
    test (`if (product.image)`, `githubConfig.username && ...`) is modelled by
    the empty string: a missing field and an empty one behave alike. */
module Types {

  datatype Option<+T> = None | Some(value: T) {
    /** The value, or `default` when there is none (JavaScript's `x ?? d`). */
    function GetOr(default: T): T {
      match this
      case Some(v) => v
      case None => default
    }
  }

  /** The exceptions the core can raise. */
  datatype Error =
    | SyntaxError            // JSON.parse or response.json() met text that is not JSON
    | TypeError              // a property read on undefined, or fetch rejecting
    | Thrown(message: string) // `throw new Error(message)`

  datatype Result<+T> = Ok(value: T) | Err(error: Error)

  /** An HTTP exchange through `fetch`: no answer at all (fetch rejects), or the
      `response.ok` flag and a body that may fail to parse as JSON. */
  datatype Response<+T> = Unreachable | Answered(ok: bool, body: Option<T>)

  /** One catalogue entry of `PRODUCTS`. */
  datatype Product = Product(
    name: string,
    price: int,
    image: string,
    description: string,
    availableSizes: seq<string>,
    availableColors: seq<string>)

  /** One entry of `DELIVERY_PRICES`: the home and pickup-desk fees. */
  datatype Fees = Fees(home: int, desk: int)

  datatype Discounts = Discounts(minQuantityForDiscount: int, discountPerItem: int)

  datatype StoreInfo = StoreInfo(name: string, tagline: string, phoneNumbers: seq<string>)

  /** The store configuration (`STORE_CONFIG`), one optional field per top-level key. */
  datatype Config = Config(
    products: Option<map<string, Product>>,        // PRODUCTS
    deliveryPrices: Option<map<string, Fees>>,     // DELIVERY_PRICES
    discounts: Option<Discounts>,                  // DISCOUNTS
    storeInfo: Option<StoreInfo>,                  // STORE_INFO
    ageSizes: Option<map<nat, string>>,            // AGE_SIZES
    availableColors: Option<seq<string>>,          // AVAILABLE_COLORS
    availableSizes: Option<seq<string>>)           // AVAILABLE_SIZES
  {
    /** `Object.keys(config).length === 0`: the object `{}`. */
    predicate IsEmpty()
      ensures IsEmpty() <==> this == Config(None, None, None, None, None, None, None)
    {
      && products.None? && deliveryPrices.None? && discounts.None? && storeInfo.None?
      && ageSizes.None? && availableColors.None? && availableSizes.None?
    }
  }

  /** The object `{}`, the value of `STORE_CONFIG` when the page starts. */
  const EmptyConfig: Config := Config(None, None, None, None, None, None, None)

  /** A tenant's `github` record: where its configuration lives and the token to write it. */
  datatype Coords = Coords(username: string, repo: string, branch: string, token: string)

  /** One tenant of the `stores` map. */
  datatype Store = Store(config: Config, github: Option<Coords>)
}
