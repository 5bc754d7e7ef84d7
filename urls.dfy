/** `urllib.parse.urlparse` narrowed to what the alternate-asset code reads
    from it: the split of an href into scheme, network location (the
    authority of section 3.2 of RFC 3986), path, query and fragment. */
module Urls {

  import opened Wrappers
  import opened Strings

  datatype UrlParts = UrlParts(scheme: string, netloc: string, path: string, query: string, fragment: string)

  predicate IsAsciiLetter(c: char)
  {
    'a' <= c <= 'z' || 'A' <= c <= 'Z'
  }

  /** Letters, digits, "+", "-" and ".": the characters a scheme may hold. */
  predicate IsSchemeChar(c: char)
  {
    IsAsciiLetter(c) || '0' <= c <= '9' || c == '+' || c == '-' || c == '.'
  }

  predicate IsScheme(s: string)
  {
    s != [] && IsAsciiLetter(s[0]) && forall k :: 0 <= k < |s| ==> IsSchemeChar(s[k])
  }

  /** The scheme is the text before the first ":" when that text is a
      well-formed scheme; it is lower-cased. Otherwise there is no scheme. */
  function SplitScheme(url: string): (string, string)
  {
    var i := IndexOf(url, ':');
    if 0 < i < |url| && IsScheme(url[..i]) then (Lower(url[..i]), url[i + 1..]) else ("", url)
  }

  /** After "//", the network location runs up to the first "/", "?" or "#". */
  function SplitNetloc(rest: string): (string, string)
  {
    if StartsWith(rest, "//") then
      var d := 2 + IndexOfAny(rest[2..], {'/', '?', '#'});
      (rest[2..d], rest[d..])
    else
      ("", rest)
  }

  function UrlSplit(url: string): (p: UrlParts)
    ensures '/' !in p.netloc && '?' !in p.netloc && '#' !in p.netloc
    ensures '?' !in p.path && '#' !in p.path
    ensures '#' !in p.query
  {
    var (scheme, rest) := SplitScheme(url);
    var (netloc, tail) := SplitNetloc(rest);
    SplitTail(scheme, netloc, tail)
  }

  /** What follows the network location: the fragment after the first "#",
      then the query after the first "?" of what precedes it, then the path. */
  function SplitTail(scheme: string, netloc: string, tail: string): (p: UrlParts)
    ensures p.scheme == scheme && p.netloc == netloc
    ensures '?' !in p.path && '#' !in p.path
    ensures '#' !in p.query
  {
    var h := IndexOf(tail, '#');
    var fragment := if h < |tail| then tail[h + 1..] else "";
    var beforeFragment := tail[..h];
    var q := IndexOf(beforeFragment, '?');
    var query := if q < |beforeFragment| then beforeFragment[q + 1..] else "";
    UrlParts(scheme, netloc, beforeFragment[..q], query, fragment)
  }

  function QueryText(query: Option<string>): string
  {
    match query
    case None => ""
    case Some(q) => "?" + q
  }

  /** An href written as `scheme://netloc/path[?query]` splits back into
      exactly those parts, with an empty query when none was written. */
  lemma UrlSplitComposed(scheme: string, netloc: string, path: string, query: Option<string>)
    requires IsScheme(scheme) && Lower(scheme) == scheme
    requires '/' !in netloc && '?' !in netloc && '#' !in netloc
    requires path == [] || path[0] == '/'
    requires '?' !in path && '#' !in path
    requires query.Some? ==> '#' !in query.value
    ensures UrlSplit(scheme + "://" + netloc + path + QueryText(query))
         == UrlParts(scheme, netloc, path, if query.Some? then query.value else "", "")
  {
    var tail := path + QueryText(query);
    var rest := "//" + netloc + tail;
    Regrouped(scheme, netloc, path, QueryText(query));
    SchemeOfComposed(scheme, rest);
    NetlocOfComposed(netloc, tail);
    SplitInStages(scheme + ":" + rest, scheme, rest, netloc, tail);
    TailOfComposed(scheme, netloc, path, query);
  }

  lemma Regrouped(scheme: string, netloc: string, path: string, query: string)
    ensures scheme + "://" + netloc + path + query == scheme + ":" + ("//" + netloc + (path + query))
  {
  }

  lemma SplitInStages(url: string, scheme: string, rest: string, netloc: string, tail: string)
    requires SplitScheme(url) == (scheme, rest) && SplitNetloc(rest) == (netloc, tail)
    ensures UrlSplit(url) == SplitTail(scheme, netloc, tail)
  {
  }

  lemma SchemeOfComposed(scheme: string, rest: string)
    requires IsScheme(scheme) && Lower(scheme) == scheme
    ensures SplitScheme(scheme + ":" + rest) == (scheme, rest)
  {
    var url := scheme + ":" + rest;
    assert url[|scheme|] == ':';
    assert url[..|scheme|] == scheme;
    assert url[|scheme| + 1..] == rest;
  }

  lemma NetlocOfComposed(netloc: string, tail: string)
    requires '/' !in netloc && '?' !in netloc && '#' !in netloc
    requires tail == [] || tail[0] in {'/', '?'}
    ensures SplitNetloc("//" + netloc + tail) == (netloc, tail)
  {
    var rest := "//" + netloc + tail;
    assert rest[2..] == netloc + tail;
    if tail != [] {
      assert (netloc + tail)[|netloc|] == tail[0];
    }
    assert rest[2..2 + |netloc|] == netloc;
    assert rest[2 + |netloc|..] == tail;
  }

  lemma TailOfComposed(scheme: string, netloc: string, path: string, query: Option<string>)
    requires '?' !in path && '#' !in path
    requires query.Some? ==> '#' !in query.value
    ensures SplitTail(scheme, netloc, path + QueryText(query))
         == UrlParts(scheme, netloc, path, if query.Some? then query.value else "", "")
  {
    match query
    case None =>
      assert path + QueryText(query) == path;
      IndexOfAbsent(path, '#');
      IndexOfAbsent(path, '?');
      assert path[..|path|] == path;
    case Some(v) =>
      var tail := path + ("?" + v);
      assert path + QueryText(query) == tail;
      assert '#' !in tail;
      IndexOfAbsent(tail, '#');
      assert tail[..|tail|] == tail;
      IndexOfConcat(path, "?" + v, '?');
      assert IndexOf("?" + v, '?') == 0;
      assert tail[..|path|] == path;
      assert tail[|path| + 1..] == v;
  }
}
