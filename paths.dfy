/**
 Path derivation: the router's current URL cut at its query string, always
 as an absolute path.
 */
module Paths {
  import opened Values
  import opened Strings

  /** `router.currentURL || ''`: an absent URL reads as the empty string. */
  function UrlText(currentURL: Option<string>): string
  {
    match currentURL
    case None => ""
    case Some(u) => u
  }

  /** `pathParts`: the pieces before and after the first `?` of the current
      URL, with `/` put in front of the first when it does not start with
      one. The second is absent when the URL holds no `?`; when it holds
      several, only the text up to the second `?` is kept. */
  function PathParts(currentURL: Option<string>): (r: (string, Option<string>))
    ensures |r.0| >= 1 && r.0[0] == '/' && '?' !in r.0
    ensures r.1.Some? ==> '?' !in r.1.value
  {
    var pieces := Split(UrlText(currentURL), '?');
    var path := pieces[0];
    var absolutePath := if |path| > 0 && path[0] == '/' then path else "/" + path;
    (absolutePath, if |pieces| > 1 then Some(pieces[1]) else None)
  }

  /** The path `pathParts` returns: `head` is the text of the URL before
      its first `?` (all of it when there is none), and the path is `head`
      with `/` put in front when it does not start with one. An empty or
      absent URL gives the root `/`. */
  lemma {:induction false} PathOfUrl(currentURL: Option<string>) returns (head: string)
    ensures var u := UrlText(currentURL);
      head <= u && '?' !in head && (|head| == |u| || u[|head|] == '?')
    ensures PathParts(currentURL).0 ==
      if |head| > 0 && head[0] == '/' then head else "/" + head
    ensures |PathParts(currentURL).0| > 0 && PathParts(currentURL).0[0] == '/'
    ensures UrlText(currentURL) == "" ==> PathParts(currentURL).0 == "/"
  {
    var u := UrlText(currentURL);
    var pieces := Split(u, '?');
    JoinSplit(u, '?');
    JoinStart(pieces, '?');
    head := pieces[0];
  }

  /** The parameters `pathParts` returns: present exactly when the URL has a
      `?`, and then the text after the first `?` up to the next `?` or the
      end. */
  lemma {:induction false} ParamsOfUrl(currentURL: Option<string>) returns (head: string)
    ensures var u := UrlText(currentURL);
      head <= u && '?' !in head && (|head| == |u| || u[|head|] == '?')
    ensures PathParts(currentURL).1.Some? <==> '?' in UrlText(currentURL)
    ensures PathParts(currentURL).1.Some? ==>
      var u, p := UrlText(currentURL), PathParts(currentURL).1.value;
      && '?' !in p
      && head + "?" + p <= u
      && (|head| + 1 + |p| == |u| || u[|head| + 1 + |p|] == '?')
  {
    var u := UrlText(currentURL);
    var pieces := Split(u, '?');
    JoinSplit(u, '?');
    JoinStart(pieces, '?');
    head := pieces[0];
    if |pieces| > 1 {
      var tail := Join(pieces[1..], '?');
      assert u == head + "?" + tail;
      JoinStart(pieces[1..], '?');
      assert u[|head|] == '?';
      assert head + "?" + pieces[1] <= u;
      if |head| + 1 + |pieces[1]| < |u| {
        assert u[|head| + 1 + |pieces[1]|] == tail[|pieces[1]|];
      }
    } else {
      assert '?' !in u;
    }
  }
}
