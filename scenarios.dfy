/**
 Two navigations followed through the service, as a client sees them from
 the contracts alone.
 */
module Scenarios {
  import opened Values
  import opened Strings
  import opened KeyOrder
  import opened Paths
  import opened Urls
  import opened Service
  import Merging

  /** An absolute path followed by one `?` and a query splits into the two. */
  lemma UrlParts(path: string, query: string)
    requires |path| > 0 && path[0] == '/' && '?' !in path && '?' !in query
    ensures PathParts(Some(path + "?" + query)) == (path, Some(query))
  {
    SplitAtSeparator(path, '?', query);
    SplitNoSeparator(query, '?');
  }

  lemma ItemsRecord()
    ensures SortKeys(map["sort" := Str("asc"), "page" := Num(2.0)]) == [("page", Num(2.0)), ("sort", Str("asc"))]
  {
    var expected: Record := [("page", Num(2.0)), ("sort", Str("asc"))];
    assert Less("page", "sort");
    assert ToMap(expected) == map["sort" := Str("asc"), "page" := Num(2.0)];
    SortKeysUnique(expected, map["sort" := Str("asc"), "page" := Num(2.0)]);
  }

  lemma DetailUrlParts()
    ensures PathParts(Some("/detail")) == ("/detail", None)
    ensures PathParts(None) == ("/", None)
  {
    SplitNoSeparator("/detail", '?');
    assert Split("", '?') == [""];
    assert "/" + "" == "/";
  }

  /** Visiting `/items?sort=asc` and then writing `page = 2` through the view
      pushes one history entry whose query is built from `page` and `sort`,
      in that order. */
  method NavigateThenWrite(codec: Codec, loc: Location)
    requires codec.parse("sort=asc") == map["sort" := Str("asc")]
  {
    UrlParts("/items", "sort=asc");
    var service := new QueryParamsService(Some("/items" + "?" + "sort=asc"), codec);
    assert service.currentPath == "/items";
    assert service.byPath["/items"] == map["sort" := Str("asc")];
    service.Set("page", Num(2.0), loc, codec);
    assert service.byPath["/items"] == map["sort" := Str("asc"), "page" := Num(2.0)];
    ItemsRecord();
    assert service.history == [Push(PushUrl(loc, codec.stringify([("page", Num(2.0)), ("sort", Str("asc"))])))];
  }

  /** Arriving at `/detail` with no query and nothing stored for it replaces
      the history entry with a URL that has no `?`. */
  method NavigateWithoutQuery(codec: Codec, loc: Location)
    requires codec.stringify([]) == ""
    requires loc.search == ""
  {
    DetailUrlParts();
    Merging.MergeNothing(map[]);
    var service := new QueryParamsService(None, codec);
    service.RouteDidChange(Some("/detail"), "/detail", loc, codec);
    assert service.byPath["/detail"] == map[];
    var query := RouteQuery(service.byPath, "/detail", loc.search, codec);
    assert query == map[];
    assert SortKeys(query) == [];
    assert ReplaceUrl(loc, "") == Origin(loc) + loc.hash;
    assert service.history == [Replace(Origin(loc) + loc.hash)];
  }
}
