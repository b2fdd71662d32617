/**
 The query-parameter service: a store of parameter sets keyed by path, a
 current view bound to the entry of the active path, and the two
 synchronisations with the browser history (replace on route change, push
 on a write through the view).
 */
module Service {
  import opened Values
  import opened Strings
  import opened KeyOrder
  import opened Paths
  import opened Urls
  import opened Merging

  /** The query-string codec, taken as given: `qs.parse` and `qs.stringify`. */
  datatype Codec = Codec(parse: string -> Params, stringify: Record -> string)

  /** `qs.parse`, which gives an empty object for an absent or empty string. */
  function ParseQs(codec: Codec, s: Option<string>): (r: Params)
    ensures s == None || s == Some("") ==> r == map[]
  {
    if s == None || s == Some("") then map[] else codec.parse(s.value)
  }

  /** `window.history` entries written: the state is `{ path: url }` and the
      title is empty in both. */
  datatype HistoryEvent = Push(url: string) | Replace(url: string)

  /** `this.byPath[path] || {}`: the entry of a path, empty when none exists. */
  function Entry(byPath: map<string, Params>, path: string): Params
  {
    if path in byPath then byPath[path] else map[]
  }

  /** The store after `updateParams` for the router's current URL. */
  function RouteParams(byPath: map<string, Params>, currentURL: Option<string>, codec: Codec): (r: map<string, Params>)
    ensures var path := PathParts(currentURL).0;
      && r.Keys == byPath.Keys + {path}
      && (forall p :: p in byPath && p != path ==> r[p] == byPath[p])
  {
    var (path, params) := PathParts(currentURL);
    byPath[path := Merge(Entry(byPath, path), ParseQs(codec, params))]
  }

  /** The parameters `updateURL` serialises: those of the live location,
      overridden by the ones stored for the route's URL. */
  function RouteQuery(byPath: map<string, Params>, routePath: string, search: string, codec: Codec): (r: Params)
    ensures var stored, pieces := Entry(byPath, routePath), Split(search, '?');
      var existing := ParseQs(codec, if |pieces| > 1 then Some(pieces[1]) else None);
      && r.Keys == existing.Keys + stored.Keys
      && (forall k :: k in stored ==> r[k] == stored[k])
      && (forall k :: k in existing && k !in stored ==> r[k] == existing[k])
  {
    var pieces := Split(search, '?');
    var existing := ParseQs(codec, if |pieces| > 1 then Some(pieces[1]) else None);
    existing + Entry(byPath, routePath)
  }

  /** Trigger A twice for the same URL leaves the store as once. */
  lemma RouteParamsIdempotent(byPath: map<string, Params>, currentURL: Option<string>, codec: Codec)
    ensures RouteParams(RouteParams(byPath, currentURL, codec), currentURL, codec) == RouteParams(byPath, currentURL, codec)
  {
    var (path, params) := PathParts(currentURL);
    MergeIdempotent(Entry(byPath, path), ParseQs(codec, params));
  }

  /** A first visit to a path stores exactly the defined pairs parsed from
      its query string. */
  lemma FirstVisit(byPath: map<string, Params>, currentURL: Option<string>, codec: Codec)
    requires PathParts(currentURL).0 !in byPath
    ensures var (path, params) := PathParts(currentURL);
      var q := ParseQs(codec, params);
      RouteParams(byPath, currentURL, codec)[path] == map k | k in q && q[k] != Undefined :: q[k]
  {
    var (path, params) := PathParts(currentURL);
    MergeIntoEmpty(ParseQs(codec, params));
  }

  class QueryParamsService {
    /** Parameter sets by path; an entry, once created, is never removed. */
    var byPath: map<string, Params>
    /** The path of the entry the current view is bound to. */
    var currentPath: string
    /** The entries written to the browser history, oldest first. */
    ghost var history: seq<HistoryEvent>

    /** The current view is bound to an entry of the store. */
    ghost predicate Valid()
      reads this
    {
      currentPath in byPath
    }

    /** Construction: the store starts empty, the view is set up and the
        current URL's parameters are read in; no history entry is written. */
    constructor (currentURL: Option<string>, codec: Codec)
      ensures Valid()
      ensures currentPath == PathParts(currentURL).0
      ensures byPath == RouteParams(map[], currentURL, codec)
      ensures history == []
    {
      byPath := map[];
      history := [];
      new;
      SetupProxies(currentURL);
      UpdateParams(currentURL, codec);
    }

    /** `setupProxies`: create the entry of the current path when missing and
        bind the view to it. */
    method SetupProxies(currentURL: Option<string>)
      modifies this`byPath, this`currentPath
      ensures Valid()
      ensures currentPath == PathParts(currentURL).0
      ensures byPath == old(byPath)[currentPath := Entry(old(byPath), currentPath)]
    {
      var (path, _) := PathParts(currentURL);
      byPath := byPath[path := Entry(byPath, path)];
      currentPath := path;
    }

    /** `updateParams`: rebind the view and merge the current URL's parsed
        query into the entry of its path. */
    method UpdateParams(currentURL: Option<string>, codec: Codec)
      modifies this`byPath, this`currentPath
      ensures Valid()
      ensures currentPath == PathParts(currentURL).0
      ensures byPath == RouteParams(old(byPath), currentURL, codec)
    {
      SetupProxies(currentURL);
      var (path, params) := PathParts(currentURL);
      var queryParams := if params.Some? && params.value != "" then codec.parse(params.value) else map[];
      assert queryParams == ParseQs(codec, params);
      SetOnPath(path, queryParams);
    }

    /** `setOnPath`: merge `q` into the entry of `path`, creating it first
        when missing; no other path changes. */
    method SetOnPath(path: string, q: Params)
      modifies this`byPath
      ensures byPath == old(byPath)[path := Merge(Entry(old(byPath), path), q)]
    {
      ghost var base := byPath;
      byPath := byPath[path := Entry(byPath, path)];
      // `obj` is the entry object itself, which the loop changes in place
      var obj := byPath[path];
      ghost var entry := obj;
      var todo := q.Keys;
      ghost var done: set<string> := {};
      MergeNothing(entry);
      while todo != {}
        invariant todo + done == q.Keys && todo !! done
        invariant obj == Merge(entry, Restrict(q, done))
        invariant byPath == base[path := entry]
        decreases todo
      {
        var key :| key in todo;
        var value := q[key];
        var currentValue := Lookup(obj, key);
        ghost var before := obj;
        if currentValue == value {
        } else if value == Undefined {
          obj := obj - {key};
        } else {
          obj := obj[key := value];
        }
        assert obj == Step(before, key, value);
        MergeStep(entry, q, done, key);
        todo, done := todo - {key}, done + {key};
      }
      assert Restrict(q, done) == q;
      assert entry == Entry(base, path);
      byPath := byPath[path := obj];
      assert byPath == base[path := obj];
    }

    /** `updateURL`: serialise the location's parameters overridden by the
        stored ones for the route's URL, in key order, and replace the
        current history entry with the resulting URL. The store is not
        touched, not even to create an entry. */
    method UpdateURL(routePath: string, loc: Location, codec: Codec)
      modifies this`history
      ensures history == old(history) +
        [Replace(ReplaceUrl(loc, codec.stringify(SortKeys(RouteQuery(byPath, routePath, loc.search, codec)))))]
    {
      var queryParams := Entry(byPath, routePath);
      var pieces := Split(loc.search, '?');
      var existing := ParseQs(codec, if |pieces| > 1 then Some(pieces[1]) else None);
      var query := codec.stringify(SortKeys(existing + queryParams));
      var newUrl := loc.protocol + "//" + loc.host + loc.pathname + loc.hash + (if IsPresent(query) then "?" else "") + query;
      assert existing + queryParams == RouteQuery(byPath, routePath, loc.search, codec);
      assert newUrl == ReplaceUrl(loc, query);
      history := history + [Replace(newUrl)];
    }

    /** The route-change listener: `updateParams`, then `updateURL` for the
        current route, whose URL the router resolves to `routePath`. */
    method RouteDidChange(currentURL: Option<string>, routePath: string, loc: Location, codec: Codec)
      modifies this
      ensures Valid()
      ensures currentPath == PathParts(currentURL).0
      ensures byPath == RouteParams(old(byPath), currentURL, codec)
      ensures history == old(history) +
        [Replace(ReplaceUrl(loc, codec.stringify(SortKeys(RouteQuery(byPath, routePath, loc.search, codec)))))]
    {
      UpdateParams(currentURL, codec);
      UpdateURL(routePath, loc, codec);
    }

    /** Reading `current[key]`: the value in the bound entry, `undefined`
        when absent. */
    method Get(key: string) returns (value: Value)
      requires Valid()
      ensures key in byPath[currentPath] ==> value == byPath[currentPath][key]
      ensures key !in byPath[currentPath] ==> value == Undefined
    {
      value := Lookup(byPath[currentPath], key);
    }

    /** Writing `current[key] = value`: push a history entry for the entry
        with `key` set, whether or not the value changed, then store the
        value as given, `undefined` included. Nothing else changes. */
    method Set(key: string, value: Value, loc: Location, codec: Codec)
      requires Valid()
      modifies this`byPath, this`history
      ensures Valid() && currentPath == old(currentPath)
      ensures byPath == old(byPath)[currentPath := old(byPath)[currentPath][key := value]]
      ensures history == old(history) +
        [Push(PushUrl(loc, codec.stringify(SortKeys(byPath[currentPath]))))]
    {
      var obj := byPath[currentPath];
      var query := codec.stringify(SortKeys(obj[key := value]));
      var newUrl := loc.protocol + "//" + loc.host + loc.pathname + (if IsPresent(query) then "?" else "") + query;
      assert newUrl == PushUrl(loc, query);
      history := history + [Push(newUrl)];
      byPath := byPath[currentPath := obj[key := value]];
    }
  }
}
