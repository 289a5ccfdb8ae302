/** The built-in emergency configuration (`getDefaultConfig`) and the
    consistency it is meant to have. */
module Defaults {
  import opened Types

  /** Every element of `xs` is one of `ys`. */
  predicate SubsetOf(xs: seq<string>, ys: seq<string>) {
    forall x :: x in xs ==> x in ys
  }

  /** The catalogue agrees with the top-level lists: every product offers only
      sizes of AVAILABLE_SIZES and colours of AVAILABLE_COLORS, and every
      AGE_SIZES entry names a size of AVAILABLE_SIZES. */
  predicate SelfConsistent(c: Config) {
    && c.availableSizes.Some? && c.availableColors.Some?
    && (c.products.Some? ==>
          forall id :: id in c.products.value ==>
            && SubsetOf(c.products.value[id].availableSizes, c.availableSizes.value)
            && SubsetOf(c.products.value[id].availableColors, c.availableColors.value))
    && (c.ageSizes.Some? ==>
          forall age :: age in c.ageSizes.value ==> c.ageSizes.value[age] in c.availableSizes.value)
  }

  /** `getDefaultConfig()`: a populated configuration that satisfies the catalogue invariant. */
  function DefaultConfig(): (c: Config)
    ensures !c.IsEmpty()
    ensures SelfConsistent(c)
    ensures c.products.Some? && "1" in c.products.value
  {
    Config(
      products := Some(map[
        "1" := Product(
          name := "مودال 1",
          price := 3300,
          image := "https://raw.githubusercontent.com/ahcene43/WAW/main/images/modal1.jpg",
          description := "تصميم مريح وعصري مع تفاصيل راقية تناسب جميع المناسبات",
          availableSizes := ["S", "M", "L"],
          availableColors := ["كما في الصورة", "أبيض", "أسود", "أزرق"])]),
      deliveryPrices := Some(map[
        "00 - إختر الولاية" := Fees(home := 0, desk := 0),
        "16 - الجزائر" := Fees(home := 500, desk := 250)]),
      discounts := Some(Discounts(minQuantityForDiscount := 2, discountPerItem := 300)),
      storeInfo := Some(StoreInfo(
        name := "BEN&KRAB-Shopp",
        tagline := "متجر أفخم الملابس للأطفال",
        phoneNumbers := ["0671466489", "0551102155"])),
      ageSizes := Some(map[
        3 := "S", 4 := "S", 5 := "S",
        6 := "M", 7 := "M",
        8 := "L", 9 := "L",
        10 := "XL", 11 := "XL", 12 := "XL"]),
      availableColors := Some([
        "كما في الصورة", "أبيض", "أسود", "رمادي", "أزرق",
        "أحمر", "أخضر", "زهري", "بنفسجي", "أصفر", "برتقالي", "ذهبي"]),
      availableSizes := Some(["S", "M", "L", "XL", "XXL"]))
  }
}
