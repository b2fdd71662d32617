/**
 The two URL-assembly rules: the one of the route-change sync (which keeps
 the location's hash and writes the query after it) and the one of a write
 through the current view (which drops the hash), both adding `?` only when
 the query is present.
 */
module Urls {
  import opened Strings

  /** The parts of the browser's live location that the service reads. */
  datatype Location = Location(protocol: string, host: string, pathname: string, search: string, hash: string)

  /** A character of JavaScript's `\s` class. */
  predicate IsJsWhitespace(c: char)
  {
    var n := c as int;
    || (9 <= n <= 13) || n == 32 || n == 0xA0 || n == 0x1680
    || (0x2000 <= n <= 0x200A) || n == 0x2028 || n == 0x2029
    || n == 0x202F || n == 0x205F || n == 0x3000 || n == 0xFEFF
  }

  /** Ember's `isPresent` on a string: it has a character that is not whitespace. */
  predicate IsPresent(s: string)
  {
    exists i :: 0 <= i < |s| && !IsJsWhitespace(s[i])
  }

  /** `${isPresent(query) ? '?' : ''}${query}`: a blank query is still
      appended, only without the `?`. */
  function QuerySuffix(query: string): string
  {
    (if IsPresent(query) then "?" else "") + query
  }

  /** `protocol//host pathname`. */
  function Origin(loc: Location): string
  {
    loc.protocol + "//" + loc.host + loc.pathname
  }

  /** The URL of the route-change sync: the hash comes before the query. */
  function ReplaceUrl(loc: Location, query: string): string
  {
    Origin(loc) + loc.hash + QuerySuffix(query)
  }

  /** The URL of a write through the current view: no hash. */
  function PushUrl(loc: Location, query: string): string
  {
    Origin(loc) + QuerySuffix(query)
  }

  /** No `?` in any of the location parts the URLs are built from. */
  predicate PlainLocation(loc: Location)
  {
    '?' !in loc.protocol && '?' !in loc.host && '?' !in loc.pathname && '?' !in loc.hash
  }

  /** Splitting `base` plus the query suffix at `?` gives back `base` and the
      query when the query is present, and one piece otherwise. */
  lemma SuffixSplit(base: string, query: string)
    requires '?' !in base && '?' !in query
    ensures Split(base + QuerySuffix(query), '?') ==
      if IsPresent(query) then [base, query] else [base + query]
  {
    if IsPresent(query) {
      assert QuerySuffix(query) == ['?'] + query;
      assert base + QuerySuffix(query) == base + ['?'] + query;
      SplitAtSeparator(base, '?', query);
      SplitNoSeparator(query, '?');
    } else {
      assert QuerySuffix(query) == query;
      assert forall i :: 0 <= i < |base + query| ==> (base + query)[i] != '?';
      SplitNoSeparator(base + query, '?');
    }
  }

  /** The pushed URL carries `?` exactly when the query is present, and then
      the text after it is the query. */
  lemma PushUrlQuery(loc: Location, query: string)
    requires PlainLocation(loc) && '?' !in query
    ensures Split(PushUrl(loc, query), '?') ==
      if IsPresent(query) then [Origin(loc), query] else [Origin(loc) + query]
    ensures '?' in PushUrl(loc, query) <==> IsPresent(query)
  {
    SuffixSplit(Origin(loc), query);
    if !IsPresent(query) {
      assert '?' !in Origin(loc) + query;
    }
  }

  /** The replaced URL carries `?` exactly when the query is present, and
      then the text before it ends in the hash and the text after it is the
      query. */
  lemma ReplaceUrlQuery(loc: Location, query: string)
    requires PlainLocation(loc) && '?' !in query
    ensures Split(ReplaceUrl(loc, query), '?') ==
      if IsPresent(query) then [Origin(loc) + loc.hash, query] else [Origin(loc) + loc.hash + query]
    ensures '?' in ReplaceUrl(loc, query) <==> IsPresent(query)
  {
    SuffixSplit(Origin(loc) + loc.hash, query);
    assert ReplaceUrl(loc, query) == (Origin(loc) + loc.hash) + QuerySuffix(query);
    if !IsPresent(query) {
      assert '?' !in Origin(loc) + loc.hash + query;
    }
  }
}
