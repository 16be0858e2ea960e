/** The blog metadata endpoint (app/api/blog-metadata/route.ts): resolving
    an image reference against the page it came from, and choosing how the
    `og:image` of a post is found. Parsing a URL (`new URL`) is the parameter
    `parse`, None when it throws; fetching and parsing a page is the parameter
    `fetch`, None when the request throws. */
module BlogMetadata {
  import opened Common
  import opened Seqs
  import opened Text

  /** The parts of a parsed URL the endpoint reads. */
  datatype ParsedUrl = ParsedUrl(protocol: string, host: string, pathname: string)

  /** What the endpoint reads from a fetched page: the `og:*` and description
      meta contents, the `<title>` text, and the `src` of `#mainFrame`. */
  datatype HtmlPage = HtmlPage(
    ogTitle: Option<string>, titleText: string, ogDescription: Option<string>,
    metaDescription: Option<string>, ogImage: Option<string>, ogSiteName: Option<string>,
    mainFrameSrc: Option<string>)

  predicate IsAbsolute(u: string)
  {
    StartsWith(u, "http://") || StartsWith(u, "https://")
  }

  function NonEmpty(s: string): bool
  {
    s != ""
  }

  /** `pathname.split('/').filter(Boolean)` with the last segment popped. */
  function DirectorySegments(pathname: string): (dirs: seq<string>)
    ensures forall i :: 0 <= i < |dirs| ==> dirs[i] != "" && '/' !in dirs[i]
  {
    var parts := Filter(Split(pathname, '/'), NonEmpty);
    FilterMembers(Split(pathname, '/'), NonEmpty);
    if parts == [] then [] else parts[..|parts| - 1]
  }

  /** The directory of a path `/d1/…/dn/file` is `d1 … dn`. */
  lemma DirectoryOfFile(dirs: seq<string>, file: string)
    requires forall i :: 0 <= i < |dirs| ==> dirs[i] != "" && '/' !in dirs[i]
    requires file != "" && '/' !in file
    ensures DirectorySegments("/" + Join(dirs + [file], "/")) == dirs
  {
    var parts := dirs + [file];
    var path := "/" + Join(parts, "/");
    assert Filter(Split(path, '/'), NonEmpty) == parts by {
      assert forall i :: 0 <= i < |parts| ==> parts[i] != "" && '/' !in parts[i];
      SplitOfJoin(parts, '/');
      var joined := Join(parts, "/");
      assert path[0] == '/' && path[1..] == joined;
      assert Split(path, '/') == [""] + parts;
      FilterAppend([""], parts, NonEmpty);
      assert Filter([""], NonEmpty) == [] by {
        assert [""][1..] == [];
      }
      FilterKeepsAll(parts, NonEmpty);
    }
    assert parts[..|parts| - 1] == dirs;
  }

  /** `convertToAbsoluteUrl(baseUrl, relativeUrl)`. */
  function ConvertToAbsoluteUrl(baseUrl: string, relativeUrl: string,
                                parse: string -> Option<ParsedUrl>): (r: string)
    ensures IsAbsolute(relativeUrl) || parse(baseUrl).None? ==> r == relativeUrl
    ensures !IsAbsolute(relativeUrl) && parse(baseUrl).Some? && StartsWith(relativeUrl, "/") ==>
      var u := parse(baseUrl).value; r == u.protocol + "//" + u.host + relativeUrl
  {
    if IsAbsolute(relativeUrl) then relativeUrl
    else match parse(baseUrl)
      case None => relativeUrl
      case Some(u) =>
        if StartsWith(relativeUrl, "/") then u.protocol + "//" + u.host + relativeUrl
        else u.protocol + "//" + u.host + "/" + Join(DirectorySegments(u.pathname), "/") + "/" + relativeUrl
  }

  /** A plain relative reference is resolved in the directory of the base
      document: against `…/d1/…/dn/file` it becomes `…/d1/…/dn/relative`. */
  lemma ResolvesInDirectory(baseUrl: string, relativeUrl: string, parse: string -> Option<ParsedUrl>,
                            protocol: string, host: string, dirs: seq<string>, file: string)
    requires !IsAbsolute(relativeUrl) && !StartsWith(relativeUrl, "/")
    requires forall i :: 0 <= i < |dirs| ==> dirs[i] != "" && '/' !in dirs[i]
    requires file != "" && '/' !in file
    requires parse(baseUrl) == Some(ParsedUrl(protocol, host, "/" + Join(dirs + [file], "/")))
    ensures ConvertToAbsoluteUrl(baseUrl, relativeUrl, parse)
      == protocol + "//" + host + "/" + Join(dirs, "/") + "/" + relativeUrl
  {
    DirectoryOfFile(dirs, file);
  }

  /** Against a document at the top level the directory is empty, which
      leaves a double slash before the reference. */
  lemma TopLevelDoubleSlash(baseUrl: string, relativeUrl: string, parse: string -> Option<ParsedUrl>,
                            protocol: string, host: string, file: string)
    requires !IsAbsolute(relativeUrl) && !StartsWith(relativeUrl, "/")
    requires file != "" && '/' !in file
    requires parse(baseUrl) == Some(ParsedUrl(protocol, host, "/" + file))
    ensures ConvertToAbsoluteUrl(baseUrl, relativeUrl, parse) == protocol + "//" + host + "//" + relativeUrl
  {
    assert Join([] + [file], "/") == file;
    ResolvesInDirectory(baseUrl, relativeUrl, parse, protocol, host, [], file);
    var origin := protocol + "//" + host;
    assert Join([], "/") == "";
    assert origin + "/" + "" + "/" == origin + "//";
  }

  const NaverBlogHost := "blog.naver.com"
  const NaverBlogOrigin := "https://blog.naver.com"

  /** `getNaverBlogIframeUrl`: the post's frame address on the blog host, or
      None when the page could not be fetched or has no frame source. */
  function NaverIframeUrl(url: string, fetch: string -> Option<HtmlPage>): (r: Option<string>)
    ensures r.Some? <==> fetch(url).Some? && Truthy(fetch(url).value.mainFrameSrc)
    ensures r.Some? ==> r.value == NaverBlogOrigin + fetch(url).value.mainFrameSrc.value
    ensures r.Some? ==> StartsWith(r.value, NaverBlogOrigin)
  {
    match fetch(url)
    case Some(page) =>
      if Truthy(page.mainFrameSrc) then
        var u := NaverBlogOrigin + page.mainFrameSrc.value;
        assert u[..|NaverBlogOrigin|] == NaverBlogOrigin;
        Some(u)
      else None
    case None => None
  }

  /** `extractNaverBlogOgImage`: only for Naver blog addresses; the image is
      read from the frame page and resolved against the frame address. */
  function NaverOgImage(url: string, fetch: string -> Option<HtmlPage>,
                        parse: string -> Option<ParsedUrl>): (r: Option<string>)
    ensures r.Some? <==> (Contains(url, NaverBlogHost) && NaverIframeUrl(url, fetch).Some?
      && fetch(NaverIframeUrl(url, fetch).value).Some?
      && Truthy(fetch(NaverIframeUrl(url, fetch).value).value.ogImage))
    ensures r.Some? ==> var frame := NaverIframeUrl(url, fetch).value;
      fetch(frame).Some? && Truthy(fetch(frame).value.ogImage)
      && r.value == ConvertToAbsoluteUrl(frame, fetch(frame).value.ogImage.value, parse)
  {
    if !Contains(url, NaverBlogHost) then None
    else match NaverIframeUrl(url, fetch)
      case None => None
      case Some(frame) =>
        match fetch(frame)
        case None => None
        case Some(page) =>
          if Truthy(page.ogImage) then Some(ConvertToAbsoluteUrl(frame, page.ogImage.value, parse)) else None
  }

  /** `extractRegularOgImage`: the page's own image, resolved against it. */
  function RegularOgImage(url: string, fetch: string -> Option<HtmlPage>,
                          parse: string -> Option<ParsedUrl>): (r: Option<string>)
    ensures r.Some? <==> fetch(url).Some? && Truthy(fetch(url).value.ogImage)
    ensures r.Some? ==> r.value == ConvertToAbsoluteUrl(url, fetch(url).value.ogImage.value, parse)
  {
    match fetch(url)
    case None => None
    case Some(page) =>
      if Truthy(page.ogImage) then Some(ConvertToAbsoluteUrl(url, page.ogImage.value, parse)) else None
  }

  datatype MetadataResponse =
    | UrlRequired
    | FetchFailed
    | Metadata(title: string, description: string, image: string, siteName: string, url: string)

  /** `GET ?url=…`: 400 without a url, 500 when the page cannot be fetched;
      otherwise the page's metadata, whose image comes from the Naver frame
      for Naver blog addresses and from the page itself for any other. */
  function Get(url: Option<string>, fetch: string -> Option<HtmlPage>,
               parse: string -> Option<ParsedUrl>): (r: MetadataResponse)
    ensures r.UrlRequired? <==> !Truthy(url)
    ensures r.FetchFailed? <==> Truthy(url) && fetch(url.value).None?
    ensures r.Metadata? ==> r.url == url.value
    ensures r.Metadata? ==> var page := fetch(url.value).value;
      && r.title == OrElse(page.ogTitle, page.titleText)
      && r.description == OrElse(page.ogDescription, OrElse(page.metaDescription, ""))
      && r.siteName == OrElse(page.ogSiteName, "")
    ensures r.Metadata? && Contains(url.value, NaverBlogHost) ==> r.image == OrElse(NaverOgImage(url.value, fetch, parse), "")
    ensures r.Metadata? && !Contains(url.value, NaverBlogHost) ==> r.image == OrElse(RegularOgImage(url.value, fetch, parse), "")
  {
    if !Truthy(url) then UrlRequired
    else
      var u := url.value;
      match fetch(u)
      case None => FetchFailed
      case Some(page) =>
        var ogImage := if Contains(u, NaverBlogHost) then NaverOgImage(u, fetch, parse)
                       else RegularOgImage(u, fetch, parse);
        Metadata(
          if Truthy(page.ogTitle) then page.ogTitle.value else page.titleText,
          if Truthy(page.ogDescription) then page.ogDescription.value else OrElse(page.metaDescription, ""),
          OrElse(ogImage, ""),
          OrElse(page.ogSiteName, ""),
          u)
  }

  /** An absolute `og:image` on an ordinary page is reported as it is. */
  lemma AbsoluteImageKept(url: string, fetch: string -> Option<HtmlPage>, parse: string -> Option<ParsedUrl>)
    requires url != "" && !Contains(url, NaverBlogHost) && fetch(url).Some?
    requires Truthy(fetch(url).value.ogImage) && IsAbsolute(fetch(url).value.ogImage.value)
    ensures Get(Some(url), fetch, parse).Metadata?
    ensures Get(Some(url), fetch, parse).image == fetch(url).value.ogImage.value
  {
  }

  /** For a Naver blog post the image comes from the frame page: an absolute
      `og:image` there is reported unchanged, whatever the post page says. */
  lemma NaverImageFromFrame(url: string, fetch: string -> Option<HtmlPage>, parse: string -> Option<ParsedUrl>)
    requires Contains(url, NaverBlogHost) && fetch(url).Some? && Truthy(fetch(url).value.mainFrameSrc)
    requires var frame := NaverBlogOrigin + fetch(url).value.mainFrameSrc.value;
      fetch(frame).Some? && Truthy(fetch(frame).value.ogImage) && IsAbsolute(fetch(frame).value.ogImage.value)
    ensures Get(Some(url), fetch, parse).Metadata?
    ensures Get(Some(url), fetch, parse).image
      == fetch(NaverBlogOrigin + fetch(url).value.mainFrameSrc.value).value.ogImage.value
  {
  }
}
