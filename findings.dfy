/** Client.Path as written against Client.IntendedPath. As written, the "//"
    after the scheme of the base does not survive path.Join, and a relative
    path that merely starts with the letters "http" is taken for an absolute
    URL. Client.IntendedPath does neither, and agrees with Client.Path
    wherever the base is not empty and the joined path is already clean. */
module PathJoinBehaviour {
  import opened Strings
  import opened Paths
  import opened HttpClient

  /** A path whose first element is not empty does not start with a slash. */
  lemma SplitFirstNonEmpty(s: string)
    requires s != [] && Split(s)[0] != []
    ensures s[0] != '/'
  {
  }

  /** The base trimmed of its trailing slash. */
  lemma TrimHostBase(scheme: string, host: string)
    requires host != [] && '/' !in host
    ensures TrimRight(scheme + "//" + host + "/", '/') == scheme + "//" + host
  {
    var b := scheme + "//" + host;
    TrimAbsorbsCut(b, '/');
    assert b[|b| - 1] == host[|host| - 1];
  }

  /** The elements of "scheme//host/path": an empty one sits between the
      scheme's two slashes. */
  lemma SplitSchemeURL(scheme: string, host: string, path: string)
    requires '/' !in scheme && '/' !in host
    ensures Split(scheme + "//" + host + "/" + path) == [scheme, ""] + ([host] + Split(path))
  {
    assert scheme + "//" + host + "/" + path == scheme + "/" + ("" + "/" + (host + "/" + path));
    SplitPlain(scheme);
    SplitPlain(host);
    SplitAtSlash(host, path);
    SplitAtSlash("", host + "/" + path);
    SplitAtSlash(scheme, "" + "/" + (host + "/" + path));
  }

  /** The names kept by cleaning "scheme//host/path": all of them. */
  lemma ResolveSchemeURL(scheme: string, host: string, path: string)
    requires CleanElements([scheme, host] + Split(path), true)
    ensures Resolve([scheme, ""] + ([host] + Split(path)), false, []) == [scheme, host] + Split(path)
  {
    var names := [scheme, host] + Split(path);
    var rest := [host] + Split(path);
    assert names[0] == scheme && [scheme] + rest == names;
    var es := [scheme, ""] + rest;
    assert es[0] == scheme && es[1..][0] == "" && es[1..][1..] == rest;
    var none: seq<string> := [];
    assert none + [scheme] == [scheme];
    assert Resolve(es, false, none) == Resolve(es[1..], false, [scheme]);
    ResolveClean(rest, false, [scheme]);
  }

  /** Cleaning a relative path that keeps some name joins the kept names. */
  lemma CleanRelative(s: string)
    requires s != [] && s[0] != '/'
    requires Resolve(Split(s), false, []) != []
    ensures Clean(s) == JoinSlash(Resolve(Split(s), false, []))
  {
    var kept := Resolve(Split(s), false, []);
    ResolveKeepsClean(Split(s), false, []);
    CleanFromElements(kept, false);
  }

  /** Cleaning "scheme//host/path" keeps every name and merges the two slashes. */
  lemma CleanMergesSchemeSlashes(scheme: string, host: string, path: string)
    requires CleanElements([scheme, host] + Split(path), true)
    ensures Clean(scheme + "//" + host + "/" + path) == scheme + "/" + host + "/" + path
  {
    var names := [scheme, host] + Split(path);
    assert names[0] == scheme && names[1] == host;
    var s := scheme + "//" + host + "/" + path;
    SplitSchemeURL(scheme, host, path);
    ResolveSchemeURL(scheme, host, path);
    assert s[0] == scheme[0];
    CleanRelative(s);
    JoinSplit(path);
    JoinAppend([scheme, host], Split(path));
    assert JoinSlash([scheme, host]) == scheme + "/" + host;
  }

  /** As written: with base "scheme//host/", Path("/path") keeps the names and
      loses one slash of the scheme, so it is never "scheme//host/path". */
  lemma PathDropsSchemeSlash(c: Client, scheme: string, host: string, path: string)
    requires CleanElements([scheme, host] + Split(path), true)
    requires c.baseURL == scheme + "//" + host + "/"
    ensures c.Path("/" + path) == scheme + "/" + host + "/" + path
    ensures c.Path("/" + path) != scheme + "//" + host + "/" + path
  {
    var names := [scheme, host] + Split(path);
    assert names[1] == host && names[2] == Split(path)[0];
    TrimHostBase(scheme, host);
    assert path != [];
    SplitFirstNonEmpty(path);
    assert ("/" + path)[0] == '/' && ("/" + path)[1..] == path;
    assert TrimLeft("/" + path, '/') == path;
    CleanMergesSchemeSlashes(scheme, host, path);
    assert scheme + "//" + host + "/" + path == (scheme + "//" + host) + "/" + path;
  }

  /** The elements of "a/b". */
  lemma SplitAB()
    ensures Split("a/b") == ["a", "b"]
  {
    SplitPlain("a");
    SplitPlain("b");
    SplitAtSlash("a", "b");
    assert "a" + "/" + "b" == "a/b";
  }

  /** "http:", "base", "a" and "b" are plain names. */
  lemma ExampleNames()
    ensures CleanElements(["http:", "base"] + Split("a/b"), true)
  {
    SplitAB();
    var names: seq<string> := ["http:", "base", "a", "b"];
    assert ["http:", "base"] + Split("a/b") == names;
    assert forall i :: 0 <= i < |names| ==> '/' !in names[i] && names[i] != "." && names[i] != ".." && names[i] != "";
  }

  /** The example strings, spelt out piece by piece. */
  lemma ExampleStrings()
    ensures "http:" + "//" + "base" + "/" == "http://base/"
    ensures "/" + "a/b" == "/a/b"
    ensures "http:" + "/" + "base" + "/" + "a/b" == "http:/base/a/b"
    ensures "http:" + "//" + "base" + "/" + "a/b" == "http://base/a/b"
  {
  }

  /** As written, on the base "http://base/": Path("/a/b") is "http:/base/a/b". */
  lemma PathCollapsesSchemeSlashes(c: Client)
    requires c.baseURL == "http://base/"
    ensures c.Path("/a/b") == "http:/base/a/b"
  {
    ExampleNames();
    ExampleStrings();
    PathDropsSchemeSlash(c, "http:", "base", "a/b");
  }

  /** As written: a relative path starting with the letters "http" is returned
      as it is instead of being joined to the base. */
  lemma PathPassesHttpPrefixedRelative(c: Client)
    requires c.baseURL == "http://base"
    ensures c.Path("httpdocs/index") == "httpdocs/index"
  {
    assert HasPrefix("httpdocs/index", "http");
  }

  /** As intended: with base "scheme//host/", the path is appended after one
      slash and the "//" of the scheme is kept. */
  lemma IntendedPathKeepsScheme(c: Client, scheme: string, host: string, path: string)
    requires CleanElements([scheme, host] + Split(path), true)
    requires c.baseURL == scheme + "//" + host + "/"
    ensures c.IntendedPath("/" + path) == scheme + "//" + host + "/" + path
  {
    var names := [scheme, host] + Split(path);
    assert names[1] == host && names[2] == Split(path)[0];
    TrimHostBase(scheme, host);
    assert path != [];
    SplitFirstNonEmpty(path);
    assert ("/" + path)[0] == '/' && ("/" + path)[1..] == path;
    assert TrimLeft("/" + path, '/') == path;
  }

  /** As intended, on the base "http://base/": "/a/b" gives "http://base/a/b". */
  lemma IntendedPathJoinsURL(c: Client)
    requires c.baseURL == "http://base/"
    ensures c.IntendedPath("/a/b") == "http://base/a/b"
  {
    ExampleNames();
    ExampleStrings();
    IntendedPathKeepsScheme(c, "http:", "base", "a/b");
  }

  /** As intended: only a real scheme marks an absolute URL, so a relative
      path starting with the letters "http" is joined to the base. */
  lemma IntendedPathJoinsHttpPrefixedRelative(c: Client)
    requires c.baseURL == "http://base"
    ensures c.IntendedPath("httpdocs/index") == "http://base/httpdocs/index"
  {
    var url := "httpdocs/index";
    assert url[4] != ':';
    assert c.baseURL[|c.baseURL| - 1] == 'e';
    assert TrimRight(c.baseURL, '/') == c.baseURL;
    assert TrimLeft(url, '/') == url;
  }

  /** The two agree wherever cleaning has nothing to do: a relative path that
      does not start with "http", joined to the trimmed base, already clean. */
  lemma IntendedPathAgreesWhenClean(c: Client, url: string)
    requires !HasPrefix(url, "http") && url != []
    requires TrimRight(c.baseURL, '/') != []
    requires IsClean(TrimRight(c.baseURL, '/') + "/" + TrimLeft(url, '/'))
    ensures c.Path(url) == c.IntendedPath(url)
  {
    assert !HasPrefix(url, "http://") && !HasPrefix(url, "https://");
    CleanFixesClean(TrimRight(c.baseURL, '/') + "/" + TrimLeft(url, '/'));
  }
}
