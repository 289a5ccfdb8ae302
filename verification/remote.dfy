/** Where the configuration is read from: the raw-file URL of the active
    tenant's repository, or the storefront's own default repository
    (`loadRemoteConfig` and `loadRemoteConfigWithToken`). */
module Remote {
  import opened Types
  import opened Storage
  import Text

  /** The host that serves raw repository files. */
  const RawOrigin: string := "https://raw.githubusercontent.com"
  const RawHost: string := RawOrigin + "/"

  /** The configuration file of the storefront's own repository. */
  const DefaultConfigUrl: string := "https://raw.githubusercontent.com/ahcene43/WAW/main/config.json"

  /** `githubConfig.branch || 'main'` */
  function BranchOrMain(c: Coords): string {
    if c.branch != "" then c.branch else "main"
  }

  /** The raw-file URL of `config.json` in a tenant's repository (the template
      the source writes out twice, without and with presence checks). */
  function RawConfigUrl(c: Coords): string {
    RawHost + c.username + "/" + c.repo + "/" + BranchOrMain(c) + "/config.json"
  }

  /** GitHub owner and repository names never contain '/' (branch names may). */
  predicate SlashFree(c: Coords) {
    '/' !in c.username && '/' !in c.repo
  }

  /** Different repositories or branches have different configuration URLs,
      whatever the branch names hold. */
  lemma RawConfigUrlInjective(c: Coords, d: Coords)
    requires SlashFree(c) && SlashFree(d)
    requires RawConfigUrl(c) == RawConfigUrl(d)
    ensures c.username == d.username && c.repo == d.repo && BranchOrMain(c) == BranchOrMain(d)
  {
    var branchC, branchD := BranchOrMain(c), BranchOrMain(d);
    var restC, restD := branchC + "/config.json", branchD + "/config.json";
    var tailC, tailD := c.repo + "/" + restC, d.repo + "/" + restD;
    assert RawConfigUrl(c) == RawHost + (c.username + "/" + tailC);
    assert RawConfigUrl(d) == RawHost + (d.username + "/" + tailD);
    Text.PrefixCancel(RawHost, c.username + "/" + tailC, d.username + "/" + tailD);
    Text.SlashSplitUnique(c.username, tailC, d.username, tailD);
    Text.SlashSplitUnique(c.repo, restC, d.repo, restD);
    Text.SuffixCancel(branchC, branchD, "/config.json");
  }

  /** The URL `loadRemoteConfig` fetches, given the parsed `stores` map and `currentStore`. */
  function ConfigUrl(stores: map<string, Store>, current: Option<string>): (url: string)
    ensures EntryOf(stores, current).Some? && RepoOf(EntryOf(stores, current).value).Some? ==>
              var g := EntryOf(stores, current).value.github.value;
              url == "https://raw.githubusercontent.com/" + g.username + "/" + g.repo + "/"
                     + (if g.branch != "" then g.branch else "main") + "/config.json"
    ensures !(EntryOf(stores, current).Some? && RepoOf(EntryOf(stores, current).value).Some?) ==>
              url == DefaultConfigUrl
  {
    if current.Some? && current.value != "" && current.value in stores && stores[current.value].github.Some? then
      var g := stores[current.value].github.value;
      if g.username != "" && g.repo != "" then RawConfigUrl(g) else DefaultConfigUrl
    else
      DefaultConfigUrl
  }

  /** The default URL is fetched only when the tenant has no repository, or when
      its repository is the storefront's own on branch `main`. */
  lemma ConfigUrlIsDefault(stores: map<string, Store>, current: Option<string>)
    requires EntryOf(stores, current).Some? && RepoOf(EntryOf(stores, current).value).Some? ==>
               SlashFree(EntryOf(stores, current).value.github.value)
    ensures ConfigUrl(stores, current) == DefaultConfigUrl <==>
              (EntryOf(stores, current).None? || RepoOf(EntryOf(stores, current).value).None? ||
               var g := EntryOf(stores, current).value.github.value;
               g.username == "ahcene43" && g.repo == "WAW" && BranchOrMain(g) == "main")
  {
    var e := EntryOf(stores, current);
    if e.Some? && RepoOf(e.value).Some? {
      var g := e.value.github.value;
      var own := Coords("ahcene43", "WAW", "main", "");
      assert RawConfigUrl(own) == DefaultConfigUrl;
      if ConfigUrl(stores, current) == DefaultConfigUrl {
        RawConfigUrlInjective(g, own);
      }
    }
  }

  /** The request the first, synchronous part of `loadRemoteConfig` issues: none
      when `stores` does not parse (the exception is caught before any fetch),
      otherwise the chosen URL with a cache-busting `?t=` suffix. */
  function RemoteLoadRequest(s: LocalStorage, now: string): (r: Option<string>)
    ensures r.None? <==> s.stores.Unparseable?
    ensures s.stores.Missing? ==> r == Some(DefaultConfigUrl + "?t=" + now)
    ensures r.Some? ==> r.value == ConfigUrl(StoresOf(s).value, s.currentStore) + "?t=" + now
  {
    match StoresOf(s)
    case Err(_) => None
    case Ok(stores) => Some(ConfigUrl(stores, s.currentStore) + "?t=" + now)
  }

  /** The request `loadRemoteConfigWithToken` issues: the tenant's URL, unchecked. */
  function TokenLoadRequest(c: Coords, now: string): (r: string)
    ensures c.username != "" && c.repo != "" ==>
              r == ConfigUrl(map["t" := Store(EmptyConfig, Some(c))], Some("t")) + "?t=" + now
  {
    RawConfigUrl(c) + "?t=" + now
  }

  /** Without the presence checks, `loadRemoteConfigWithToken` never falls back:
      it fetches the default configuration exactly when the tenant is the
      storefront's own repository on `main`, so a tenant with an empty owner or
      repository gets its template URL, not the default one. */
  lemma TokenLoadIsDefault(c: Coords, now: string)
    requires SlashFree(c)
    ensures TokenLoadRequest(c, now) == DefaultConfigUrl + "?t=" + now <==>
              c.username == "ahcene43" && c.repo == "WAW" && BranchOrMain(c) == "main"
  {
    var suffix := "?t=" + now;
    TokenLoadSplits(c, now);
    if TokenLoadRequest(c, now) == DefaultConfigUrl + "?t=" + now {
      Text.SuffixCancel(RawConfigUrl(c), DefaultConfigUrl, suffix);
      OwnUrlIsDefault();
      RawConfigUrlInjective(c, Coords("ahcene43", "WAW", "main", ""));
    }
    if c.username == "ahcene43" && c.repo == "WAW" && BranchOrMain(c) == "main" {
      OwnUrlIsDefault();
      assert RawConfigUrl(c) == RawConfigUrl(Coords("ahcene43", "WAW", "main", ""));
    }
  }

  lemma TokenLoadSplits(c: Coords, now: string)
    ensures TokenLoadRequest(c, now) == RawConfigUrl(c) + ("?t=" + now)
    ensures DefaultConfigUrl + "?t=" + now == DefaultConfigUrl + ("?t=" + now)
  {
  }

  lemma OwnUrlIsDefault()
    ensures RawConfigUrl(Coords("ahcene43", "WAW", "main", "")) == DefaultConfigUrl
  {
  }
}
