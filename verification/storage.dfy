/** The browser's `localStorage` as config.js uses it: three keys, each
    holding text that is parsed on read. A slot holds what `JSON.parse`
    makes of the stored text, so an unparseable value is its own case. */
module Storage {
  import opened Types

  /** What reading and parsing one key gives: nothing stored (or the empty
      string, which the source treats alike), text that is not JSON, or a value. */
  datatype Slot<+T> = Missing | Unparseable | Parsed(value: T)

  datatype LocalStorage = LocalStorage(
    storeConfig: Slot<Config>,            // key 'storeConfig': the global fallback copy
    stores: Slot<map<string, Store>>,     // key 'stores': tenant id -> {config, github}
    currentStore: Option<string>)         // key 'currentStore': the active tenant id, not parsed

  /** `JSON.parse(localStorage.getItem('stores') || '{}')`: a missing key reads as
      the empty map, unparseable text throws. */
  function StoresOf(s: LocalStorage): (r: Result<map<string, Store>>)
    ensures r.Err? <==> s.stores.Unparseable?
    ensures r.Ok? && s.stores.Parsed? ==> r.value == s.stores.value
    ensures s.stores.Missing? ==> r == Ok(map[])
  {
    match s.stores
    case Missing => Ok(map[])
    case Unparseable => Err(SyntaxError)
    case Parsed(m) => Ok(m)
  }

  /** The active tenant id when `currentStore` is truthy. */
  function CurrentId(current: Option<string>): Option<string> {
    if current.Some? && current.value != "" then current else None
  }

  /** `currentStore && stores[currentStore]` when it finds one of the tenants the
      map itself holds: the active tenant's entry, if any. */
  function EntryOf(stores: map<string, Store>, current: Option<string>): (e: Option<Store>)
    ensures e.Some? <==> current.Some? && current.value != "" && current.value in stores
    ensures e.Some? ==> e.value == stores[current.value]
  {
    var id := CurrentId(current);
    if id.Some? && id.value in stores then Some(stores[id.value]) else None
  }

  /** The properties every JavaScript object inherits from `Object.prototype`
      (ECMA-262, "Properties of the Object Prototype Object"). */
  const PrototypeNames: set<string> := {
    "constructor", "hasOwnProperty", "isPrototypeOf", "propertyIsEnumerable",
    "toLocaleString", "toString", "valueOf", "__proto__",
    "__defineGetter__", "__defineSetter__", "__lookupGetter__", "__lookupSetter__"}

  /** `stores[currentStore]` finds no tenant but an inherited member, which is
      truthy and has neither a `config` nor a `github` property. */
  predicate InheritedEntry(stores: map<string, Store>, current: Option<string>)
    ensures InheritedEntry(stores, current) ==> EntryOf(stores, current).None?
  {
    current.Some? && current.value !in stores && current.value in PrototypeNames
  }

  /** The active tenant's entry as read from storage (none when `stores` does not parse). */
  function CurrentEntry(s: LocalStorage): Option<Store> {
    match StoresOf(s)
    case Ok(stores) => EntryOf(stores, s.currentStore)
    case Err(_) => None
  }

  /** The active tenant id, as read from storage, names an inherited member. */
  predicate InheritedCurrent(s: LocalStorage) {
    match StoresOf(s)
    case Ok(stores) => InheritedEntry(stores, s.currentStore)
    case Err(_) => false
  }

  /** `githubConfig && githubConfig.username && githubConfig.repo`: the tenant's
      coordinates when they name a repository. */
  function RepoOf(e: Store): (c: Option<Coords>)
    ensures c.Some? <==> e.github.Some? && e.github.value.username != "" && e.github.value.repo != ""
    ensures c.Some? ==> c == e.github
  {
    match e.github
    case Some(g) => if g.username != "" && g.repo != "" then Some(g) else None
    case None => None
  }
}
