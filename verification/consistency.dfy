/** Consistency repair over the tenant map: `validateGithubConfig` detects
    product images that do not live in the active tenant's repository, and
    `correctImageLinks` rebuilds them there and writes the `stores` map back. */
module Consistency {
  import opened Types
  import opened Storage
  import opened Text
  import Remote

  /** `/${githubConfig.username}/${githubConfig.repo}/` */
  function RepoSegment(g: Coords): string {
    "/" + g.username + "/" + g.repo + "/"
  }

  /** The filter of `validateGithubConfig`: a non-empty image outside the repository. */
  predicate WrongRepo(image: string, github: Option<Coords>) {
    && image != "" && github.Some? && github.value.username != "" && github.value.repo != ""
    && !Includes(image, RepoSegment(github.value))
  }

  /** The tenant names a repository and some product image does not mention it. */
  ghost predicate HasMismatch(e: Store) {
    && e.config.products.Some?
    && RepoOf(e).Some?
    && exists id :: id in e.config.products.value &&
         e.config.products.value[id].image != "" &&
         !Includes(e.config.products.value[id].image, RepoSegment(e.github.value))
  }

  /** `validateGithubConfig()`: true when the active tenant's catalogue holds an
      image from another repository. Reading `stores` may throw a SyntaxError,
      and reading the products of an entry whose config has no PRODUCTS a TypeError,
      as does a tenant id naming an inherited member, whose `config` is undefined. */
  function ValidateGithubConfig(s: LocalStorage): (r: Result<bool>)
    ensures r.Ok? || r == Err(SyntaxError) || r == Err(TypeError)
    ensures r == Err(SyntaxError) <==> s.stores.Unparseable?
    ensures r == Err(TypeError) <==>
              (CurrentEntry(s).Some? && CurrentEntry(s).value.config.products.None?) || InheritedCurrent(s)
    ensures r == Ok(true) <==> CurrentEntry(s).Some? && HasMismatch(CurrentEntry(s).value)
  {
    match StoresOf(s)
    case Err(e) => Err(e)
    case Ok(stores) =>
      match EntryOf(stores, s.currentStore)
      case None => if InheritedEntry(stores, s.currentStore) then Err(TypeError) else Ok(false)
      case Some(entry) =>
        match entry.config.products
        case None => Err(TypeError)
        case Some(products) =>
          var wrong := set id | id in products && WrongRepo(products[id].image, entry.github);
          WrongImagesCounted(products, entry.github);
          Ok(|wrong| > 0)
  }

  /** The link `correctImageLinks` builds for a file name: always branch `main`,
      whatever the tenant's branch. */
  function ImageUrl(g: Coords, filename: string): string {
    Remote.RawOrigin + RepoSegment(g) + ("main/images/" + filename)
  }

  /** The rebuilt form of an existing link: the same file name under the repository. */
  function RepairedImage(g: Coords, image: string): string {
    ImageUrl(g, LastSegment(image))
  }

  function RewriteProduct(p: Product, g: Coords): Product {
    if p.image != "" then p.(image := RepairedImage(g, p.image)) else p
  }

  /** `after` is `before` with every non-empty image moved under the repository's
      `main/images/`, keeping its file name, and nothing else changed. */
  ghost predicate ImagesRepaired(before: map<string, Product>, after: map<string, Product>, g: Coords) {
    && after.Keys == before.Keys
    && (forall id :: id in before && before[id].image == "" ==> after[id] == before[id])
    && (forall id :: id in before && before[id].image != "" ==>
          after[id] == before[id].(image := ImageUrl(g, LastSegment(before[id].image))))
  }

  /** The product map after the `forEach` of `correctImageLinks`. */
  function RewrittenProducts(products: map<string, Product>, g: Coords): (r: map<string, Product>)
    ensures ImagesRepaired(products, r, g)
  {
    map id | id in products :: RewriteProduct(products[id], g)
  }

  /** The `forEach` over `Object.keys(config.PRODUCTS)`, one product at a time. */
  method RewriteImages(products: map<string, Product>, g: Coords) returns (out: map<string, Product>)
    ensures out == RewrittenProducts(products, g)
  {
    out := products;
    var todo := products.Keys;
    while todo != {}
      invariant todo <= products.Keys && out.Keys == products.Keys
      invariant forall id :: id in todo ==> out[id] == products[id]
      invariant forall id :: id in products && id !in todo ==> out[id] == RewriteProduct(products[id], g)
      decreases todo
    {
      var id :| id in todo;
      out := out[id := RewriteProduct(out[id], g)];
      todo := todo - {id};
    }
  }

  /** The outcome of `correctImageLinks` and local storage after it. */
  datatype Correction = Correction(outcome: Result<bool>, storage: LocalStorage)

  /** `t` is `s` with the active tenant's images repaired and nothing else changed. */
  ghost predicate RepairedStorage(s: LocalStorage, t: LocalStorage) {
    && t.storeConfig == s.storeConfig && t.currentStore == s.currentStore
    && s.stores.Parsed? && t.stores.Parsed? && CurrentId(s.currentStore).Some?
    && var id := s.currentStore.value;
       var before := s.stores.value;
       var after := t.stores.value;
       && id in before && after.Keys == before.Keys
       && (forall other :: other in before && other != id ==> after[other] == before[other])
       && before[id].github.Some? && after[id].github == before[id].github
       && before[id].config.products.Some? && after[id].config.products.Some?
       && after[id].config == before[id].config.(products := after[id].config.products)
       && ImagesRepaired(before[id].config.products.value, after[id].config.products.value, before[id].github.value)
  }

  /** `correctImageLinks()` as a function of local storage. */
  function Corrected(s: LocalStorage): (r: Correction)
    ensures r.outcome.Ok? || r.outcome == Err(SyntaxError) || r.outcome == Err(TypeError)
    ensures r.outcome == Err(SyntaxError) <==> s.stores.Unparseable?
    ensures r.outcome == Err(TypeError) <==>
              CurrentEntry(s).Some? && RepoOf(CurrentEntry(s).value).Some? &&
              CurrentEntry(s).value.config.products.None?
    ensures r.outcome == Ok(true) <==>
              CurrentEntry(s).Some? && RepoOf(CurrentEntry(s).value).Some? &&
              CurrentEntry(s).value.config.products.Some?
    // nothing is written unless the repair happens
    ensures r.outcome != Ok(true) ==> r.storage == s
    ensures r.outcome == Ok(true) ==> RepairedStorage(s, r.storage)
  {
    match StoresOf(s)
    case Err(e) => Correction(Err(e), s)
    case Ok(stores) =>
      match EntryOf(stores, s.currentStore)
      case None => Correction(Ok(false), s)
      case Some(entry) =>
        match RepoOf(entry)
        case None => Correction(Ok(false), s)
        case Some(g) =>
          match entry.config.products
          case None => Correction(Err(TypeError), s)
          case Some(products) =>
            var config := entry.config.(products := Some(RewrittenProducts(products, g)));
            var id := s.currentStore.value;
            Correction(Ok(true), s.(stores := Parsed(stores[id := entry.(config := config)])))
  }

  /** A rebuilt link mentions the repository it was rebuilt for. */
  lemma RepairedImageInRepo(g: Coords, image: string)
    ensures Includes(RepairedImage(g, image), RepoSegment(g))
  {
    IncludesInfix(Remote.RawOrigin, RepoSegment(g), "main/images/" + LastSegment(image));
  }

  /** Counting the mismatching images finds one exactly when one exists. */
  lemma WrongImagesCounted(products: map<string, Product>, github: Option<Coords>)
    ensures |set id | id in products && WrongRepo(products[id].image, github)| > 0 <==>
            exists id :: id in products && WrongRepo(products[id].image, github)
  {
    var wrong := set id | id in products && WrongRepo(products[id].image, github);
    if exists id :: id in products && WrongRepo(products[id].image, github) {
      var id :| id in products && WrongRepo(products[id].image, github);
      assert id in wrong;
    }
    if |wrong| > 0 {
      assert wrong != {};
      var id :| id in wrong;
    }
  }

  /** The rebuilt link is a directory of the repository, a '/', and the file name. */
  lemma ImageUrlSplitsAtName(g: Coords, filename: string)
    ensures ImageUrl(g, filename) == (Remote.RawOrigin + RepoSegment(g) + "main/images") + "/" + filename
  {
    assert "main/images/" == "main/images" + "/";
  }

  /** The file name of a rebuilt link is the name it was built from. */
  lemma ImageUrlKeepsName(g: Coords, filename: string)
    requires '/' !in filename
    ensures LastSegment(ImageUrl(g, filename)) == filename
  {
    ImageUrlSplitsAtName(g, filename);
    LastSegmentAfterSlash(Remote.RawOrigin + RepoSegment(g) + "main/images", filename);
  }

  /** Rebuilding a rebuilt link gives the same link. */
  lemma RepairedImageStable(g: Coords, image: string)
    ensures RepairedImage(g, RepairedImage(g, image)) == RepairedImage(g, image)
  {
    ImageUrlKeepsName(g, LastSegment(image));
  }

  /** A link into another repository and branch moves to the tenant's `main`. */
  lemma RepairExample()
    ensures RepairedImage(Coords("new-ns", "shop", "dev", ""),
                          "https://raw.githubusercontent.com/old-ns/old-shop/dev/images/shirt.png")
            == "https://raw.githubusercontent.com/new-ns/shop/main/images/shirt.png"
  {
    var link := "https://raw.githubusercontent.com/old-ns/old-shop/dev/images/shirt.png";
    ExampleFileName(link);
    ExampleLink();
  }

  lemma ExampleLink()
    ensures ImageUrl(Coords("new-ns", "shop", "dev", ""), "shirt.png")
            == "https://raw.githubusercontent.com/new-ns/shop/main/images/shirt.png"
  {
  }

  lemma ExampleFileName(link: string)
    requires link == "https://raw.githubusercontent.com/old-ns/old-shop/dev/images/shirt.png"
    ensures LastSegment(link) == "shirt.png"
  {
    var dir := "https://raw.githubusercontent.com/old-ns/old-shop/dev/images";
    assert link == dir + "/" + "shirt.png";
    LastSegmentAfterSlash(dir, "shirt.png");
  }

  /** After a successful repair, validation finds no mismatch. */
  lemma RepairClearsMismatch(s: LocalStorage)
    requires Corrected(s).outcome == Ok(true)
    ensures ValidateGithubConfig(Corrected(s).storage) == Ok(false)
  {
    var t := Corrected(s).storage;
    var id := s.currentStore.value;
    var e := s.stores.value[id];
    var g := e.github.value;
    var before := e.config.products.value;
    var after := t.stores.value[id].config.products.value;
    assert CurrentEntry(t) == Some(t.stores.value[id]);
    forall pid | pid in after && after[pid].image != ""
      ensures Includes(after[pid].image, RepoSegment(g))
    {
      assert before[pid].image != "";
      RepairedImageInRepo(g, before[pid].image);
    }
  }

  /** Repairing twice is repairing once: the second pass rewrites every link to itself. */
  lemma RepairIsIdempotent(s: LocalStorage)
    requires Corrected(s).outcome == Ok(true)
    ensures Corrected(Corrected(s).storage) == Corrected(s)
  {
    var t := Corrected(s).storage;
    var id := s.currentStore.value;
    var entry := t.stores.value[id];
    var g := entry.github.value;
    var products := entry.config.products.value;
    assert CurrentEntry(t) == Some(entry);
    forall pid | pid in products
      ensures RewriteProduct(products[pid], g) == products[pid]
    {
      var was := s.stores.value[id].config.products.value[pid];
      if was.image != "" {
        RepairedImageStable(g, was.image);
      }
    }
    assert RewrittenProducts(products, g) == products;
    assert entry.(config := entry.config.(products := Some(products))) == entry;
    assert t.stores.value[id := entry] == t.stores.value;
  }

  /** A tenant id naming an inherited member: validation throws reading the
      products of its undefined `config`; the repair finds no `github` and reports false. */
  lemma InheritedIdExample(s: LocalStorage)
    requires s.stores == Parsed(map[]) && s.currentStore == Some("constructor")
    ensures ValidateGithubConfig(s) == Err(TypeError)
    ensures Corrected(s) == Correction(Ok(false), s)
  {
  }

  /** Whenever validation reports a mismatch, the repair applies. */
  lemma MismatchIsRepairable(s: LocalStorage)
    requires ValidateGithubConfig(s) == Ok(true)
    ensures Corrected(s).outcome == Ok(true)
  {
  }
}
