/** The page-wide state config.js works on: the global `STORE_CONFIG` and
    the browser's local storage, with the operations that change them. */
module Client {
  import opened Types
  import opened Storage
  import opened Defaults
  import opened Remote
  import opened Resolver
  import opened Consistency

  class Page {
    /** `STORE_CONFIG`, the configuration the rest of the storefront reads. */
    var storeConfig: Config
    /** `localStorage`, as far as config.js uses it. */
    var localStorage: LocalStorage

    /** The script starts with `let STORE_CONFIG = {}` over whatever storage holds. */
    constructor (storage: LocalStorage)
      ensures storeConfig == EmptyConfig && localStorage == storage
    {
      storeConfig := EmptyConfig;
      localStorage := storage;
    }

    /** `loadConfig()`: starts the remote load without awaiting it (`pending` is
        the request it leaves in flight), then falls back on the cached copy and
        on the defaults, and returns the new state. */
    method LoadConfig(now: string) returns (r: Config, pending: Option<string>)
      modifies this
      ensures localStorage == old(localStorage)
      ensures pending == RemoteLoadRequest(old(localStorage), now)
      ensures storeConfig == Resolved(old(storeConfig), old(localStorage).storeConfig)
      ensures r == storeConfig && !r.IsEmpty()
    {
      pending := RemoteLoadRequest(localStorage, now);
      var saved := localStorage.storeConfig;
      if saved.Parsed? {
        if storeConfig.IsEmpty() {
          storeConfig := saved.value;
        }
      }
      if storeConfig.IsEmpty() {
        storeConfig := DefaultConfig();
      }
      r := storeConfig;
    }

    /** The continuation of `loadRemoteConfig` and `loadRemoteConfigWithToken`
        once the fetch settles: a parsed successful answer replaces the state
        wholesale, even one `loadConfig` has populated meanwhile; anything else
        leaves it as it is. */
    method FinishRemoteLoad(response: Response<Config>) returns (loaded: bool)
      modifies this
      ensures localStorage == old(localStorage)
      ensures loaded <==> response.Answered? && response.ok && response.body.Some?
      ensures storeConfig == if loaded then response.body.value else old(storeConfig)
    {
      loaded := false;
      if response.Answered? && response.ok {
        match response.body {
          case Some(remoteConfig) =>
            storeConfig := remoteConfig;
            loaded := true;
          case None => // response.json() threw; caught, resolves false
        }
      }
    }

    /** `saveConfig(config = STORE_CONFIG)`: stores the given configuration, or the
        current state when none is passed, under `storeConfig`. */
    method SaveConfig(config: Option<Config>)
      modifies this
      ensures storeConfig == old(storeConfig)
      ensures localStorage == old(localStorage).(storeConfig := Parsed(config.GetOr(old(storeConfig))))
    {
      var value := if config.Some? then config.value else storeConfig;
      localStorage := localStorage.(storeConfig := Parsed(value));
    }

    /** `correctImageLinks()`: rebuilds the active tenant's image links and writes
        the `stores` map back; reports false, and writes nothing, when the tenant
        names no repository. */
    method CorrectImageLinks() returns (r: Result<bool>)
      modifies this
      ensures storeConfig == old(storeConfig)
      ensures Correction(r, localStorage) == Corrected(old(localStorage))
    {
      var parsed := StoresOf(localStorage);
      if parsed.Err? {
        return Err(parsed.error);
      }
      var stores := parsed.value;
      var current := localStorage.currentStore;
      if current.Some? && current.value != "" && current.value in stores {
        var config := stores[current.value].config;
        var github := stores[current.value].github;
        if github.Some? && github.value.username != "" && github.value.repo != "" {
          if config.products.None? {
            return Err(TypeError);
          }
          var products := RewriteImages(config.products.value, github.value);
          stores := stores[current.value := stores[current.value].(config := config.(products := Some(products)))];
          localStorage := localStorage.(stores := Parsed(stores));
          return Ok(true);
        }
      }
      return Ok(false);
    }
  }

  /** Page start-up followed by a successful remote answer. When the synchronous
      pass issued a fetch, the remote configuration is what remains, whatever
      `loadConfig` adopted meanwhile; when `stores` did not parse no fetch was
      issued, and the state is what `loadConfig` chose. */
  method StartUp(storage: LocalStorage, now: string, remote: Config) returns (page: Page)
    ensures fresh(page)
    ensures page.localStorage == storage
    ensures !storage.stores.Unparseable? ==> page.storeConfig == remote
    ensures storage.stores.Unparseable? ==> page.storeConfig == Resolved(EmptyConfig, storage.storeConfig)
  {
    page := new Page(storage);
    var initial, pending := page.LoadConfig(now);
    if pending.Some? {
      var loaded := page.FinishRemoteLoad(Answered(true, Some(remote)));
    }
  }
}
