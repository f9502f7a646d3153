/**
 * The feature registry (utils/feature_registry.py): two class-level
 * dictionaries, one from feature id to configuration and one from feature id
 * to handler class, filled by `register_feature` and read by `get_handler`,
 * plus the default registration run when the module is loaded.
 *
 * The registry is a single object whose two fields are the dictionaries.
 * A handler is named by its class; creating the instance is not modelled.
 * Whether a feature module can be imported is a parameter of the default
 * registration.
 */
module Registry {
  import opened Wrappers

  /** The handler classes the registry can hold. */
  datatype Handler = UrlAnalysisFeature | HtmlAnalysisFeature

  /** A feature's configuration: its display name. */
  datatype Config = Config(displayName: string)

  const UrlId: string := "url_analysis"
  const HtmlId: string := "html_analysis"
  const UrlConfig: Config := Config("\U{1F310} URL Analysis")
  const HtmlConfig: Config := Config("\U{1F4C4} HTML Analysis")

  /** What `get_handler` finds: the handler, or the ValueError message. */
  function Lookup(handlers: map<string, Handler>, id: string): (r: Result<Handler, string>)
    ensures r.Ok? <==> id in handlers
    ensures r.Ok? ==> r.value == handlers[id]
    ensures r.Err? ==> r.error == "Unknown feature: " + id
  {
    if id in handlers then Ok(handlers[id]) else Err("Unknown feature: " + id)
  }

  /** After registering `h` under `id`, looking `id` up finds `h` and every other id finds what it found before. */
  lemma LookupAfterRegister(handlers: map<string, Handler>, id: string, h: Handler, other: string)
    ensures Lookup(handlers[id := h], id) == Ok(h)
    ensures other != id ==> Lookup(handlers[id := h], other) == Lookup(handlers, other)
  {
  }

  /** A dictionary after the default registration: the URL entry, then the HTML entry, each when it imports. */
  function WithDefaults<V>(d: map<string, V>, urlImports: bool, htmlImports: bool, url: V, html: V): map<string, V> {
    var d1 := if urlImports then d[UrlId := url] else d;
    if htmlImports then d1[HtmlId := html] else d1
  }

  /**
   * The default registration adds exactly the ids whose modules import, with
   * the given entries, and keeps every other id's entry.
   */
  lemma WithDefaultsEntries<V>(d: map<string, V>, urlImports: bool, htmlImports: bool, url: V, html: V)
    ensures var r := WithDefaults(d, urlImports, htmlImports, url, html);
      && r.Keys == d.Keys + (if urlImports then {UrlId} else {}) + (if htmlImports then {HtmlId} else {})
      && (urlImports ==> r[UrlId] == url)
      && (htmlImports ==> r[HtmlId] == html)
      && forall id :: id in d && id != UrlId && id != HtmlId ==> r[id] == d[id]
  {
  }

  /** Run on an empty registry with both modules available, it holds exactly the two features. */
  lemma DefaultsFromEmpty()
    ensures WithDefaults(map[], true, true, UrlAnalysisFeature, HtmlAnalysisFeature).Keys == {UrlId, HtmlId}
    ensures WithDefaults(map[], true, true, UrlConfig, HtmlConfig)[HtmlId].displayName == "\U{1F4C4} HTML Analysis"
  {
  }

  class FeatureRegistry {
    var features: map<string, Config>
    var handlers: map<string, Handler>

    /** Both dictionaries always hold the same ids. */
    predicate Valid()
      reads this
    {
      features.Keys == handlers.Keys
    }

    constructor()
      ensures Valid() && features == map[] && handlers == map[]
    {
      features := map[];
      handlers := map[];
    }

    /** `register_feature`: a later registration of the same id overwrites the earlier one. */
    method RegisterFeature(id: string, config: Config, handler: Handler)
      requires Valid()
      modifies this
      ensures Valid()
      ensures features == old(features)[id := config] && handlers == old(handlers)[id := handler]
    {
      features := features[id := config];
      handlers := handlers[id := handler];
    }

    /** `get_handler` */
    method GetHandler(id: string) returns (r: Result<Handler, string>)
      ensures r == Lookup(handlers, id)
    {
      if id !in handlers {
        return Err("Unknown feature: " + id);
      }
      r := Ok(handlers[id]);
    }

    /**
     * `_register_default_features`: the URL feature, then the HTML feature,
     * each only when its module imports.
     */
    method RegisterDefaultFeatures(urlImports: bool, htmlImports: bool)
      requires Valid()
      modifies this
      ensures Valid()
      ensures handlers == WithDefaults(old(handlers), urlImports, htmlImports, UrlAnalysisFeature, HtmlAnalysisFeature)
      ensures features == WithDefaults(old(features), urlImports, htmlImports, UrlConfig, HtmlConfig)
    {
      if urlImports {
        RegisterFeature(UrlId, UrlConfig, UrlAnalysisFeature);
      }
      if htmlImports {
        RegisterFeature(HtmlId, HtmlConfig, HtmlAnalysisFeature);
      }
    }
  }

  /** Loading the module with both features available registers exactly the two of them. */
  method LoadRegistry() returns (registry: FeatureRegistry)
    ensures registry.Valid() && registry.handlers.Keys == {UrlId, HtmlId}
    ensures Lookup(registry.handlers, HtmlId) == Ok(HtmlAnalysisFeature)
    ensures Lookup(registry.handlers, UrlId) == Ok(UrlAnalysisFeature)
    ensures Lookup(registry.handlers, "html").Err?
  {
    registry := new FeatureRegistry();
    registry.RegisterDefaultFeatures(true, true);
    DefaultsFromEmpty();
  }
}
