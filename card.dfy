/** The place card (components/Card.tsx): the image URL it displays and its
    selection toggle. `encodeURIComponent` is the parameter `enc`. */
module Card {
  import opened Common
  import opened Text

  const HttpPrefix := "http://"
  const HttpsPrefix := "https://"
  const ProxyPrefix := "/api/image-proxy?url="
  const FallbackImage := HttpsPrefix + "via.placeholder.com/300x200?text=No+Image"

  /** `convertToHttps`: a leading `http://` becomes `https://`; any other URL
      is returned as it is. */
  function ConvertToHttps(url: string): (r: string)
    ensures StartsWith(url, HttpPrefix) ==> r == HttpsPrefix + url[|HttpPrefix|..]
    ensures !StartsWith(url, HttpPrefix) ==> r == url
  {
    if url != "" && StartsWith(url, HttpPrefix) then
      assert IndexOf(url, HttpPrefix) == Some(0);
      ReplaceFirst(url, HttpPrefix, HttpsPrefix)
    else url
  }

  /** After conversion no URL starts with `http://`, and converting again
      changes nothing. */
  lemma ConvertToHttpsIdempotent(url: string)
    ensures !StartsWith(ConvertToHttps(url), HttpPrefix)
    ensures ConvertToHttps(ConvertToHttps(url)) == ConvertToHttps(url)
  {
    var r := ConvertToHttps(url);
    if StartsWith(url, HttpPrefix) {
      assert r[4] == 's' != HttpPrefix[4];
    }
  }

  /** A URL containing the longer host name also contains the shorter one, so
      the first half of the proxy test adds nothing to the second. */
  lemma BlogThumbIsPstatic(url: string)
    requires Contains(url, "blogthumb.pstatic.net")
    ensures Contains(url, "pstatic.net")
  {
    var i := IndexOf(url, "blogthumb.pstatic.net").value;
    assert url[i + 10..i + 21] == "blogthumb.pstatic.net"[10..];
    ContainsAt(url, "pstatic.net", i + 10);
  }

  /** `getProxyImageUrl`: Naver-hosted images are fetched through the image
      proxy, with the URL encoded as its `url` parameter; others are kept. */
  function GetProxyImageUrl(url: string, enc: string -> string): (r: string)
    ensures Contains(url, "pstatic.net") ==> r == ProxyPrefix + enc(url)
    ensures !Contains(url, "pstatic.net") ==> r == url
  {
    assert Contains(url, "blogthumb.pstatic.net") ==> Contains(url, "pstatic.net") by {
      if Contains(url, "blogthumb.pstatic.net") {
        BlogThumbIsPstatic(url);
      }
    }
    if Contains(url, "blogthumb.pstatic.net") || Contains(url, "pstatic.net") then
      ProxyPrefix + enc(url)
    else
      url
  }

  /** `safeImageUrl`: the placeholder when the place has no image or only
      whitespace; otherwise the image upgraded to https and then proxied when
      Naver hosts it. */
  function SafeImageUrl(image: Option<string>, enc: string -> string): (r: string)
    ensures !Truthy(image) || Trim(image.value) == "" ==> r == FallbackImage
    ensures Truthy(image) && Trim(image.value) != "" ==> r == GetProxyImageUrl(ConvertToHttps(image.value), enc)
  {
    var hasImage := Truthy(image) && Trim(image.value) != "";
    if hasImage then GetProxyImageUrl(ConvertToHttps(image.value), enc) else FallbackImage
  }

  /** The card never loads an image over plain http: the URL it shows is the
      https placeholder, a proxy path on the same site, or an image URL whose
      `http://` was upgraded. */
  lemma SafeImageUrlNeverPlainHttp(image: Option<string>, enc: string -> string)
    ensures !StartsWith(SafeImageUrl(image, enc), HttpPrefix)
  {
    if Truthy(image) && Trim(image.value) != "" {
      var u := ConvertToHttps(image.value);
      ConvertToHttpsIdempotent(image.value);
      if Contains(u, "pstatic.net") {
        SiteLocalNotHttp(ProxyPrefix + enc(u));
      }
    } else {
      assert FallbackImage[..|HttpsPrefix|] == HttpsPrefix;
      SecureNotHttp(FallbackImage);
    }
  }

  /** A path on the same site is not a plain-http URL. */
  lemma SiteLocalNotHttp(s: string)
    requires |s| > 0 && s[0] == '/'
    ensures !StartsWith(s, HttpPrefix)
  {
  }

  /** An https URL is not a plain-http URL. */
  lemma SecureNotHttp(s: string)
    requires StartsWith(s, HttpsPrefix)
    ensures !StartsWith(s, HttpPrefix)
  {
    assert s[4] == s[..8][4] == 's';
    assert s[..7][4] == s[4];
  }

  /** The card's selection after a click, and whether `onSelect` was called. */
  datatype Click = Click(selected: bool, notified: bool)

  /** `handleCardClick`: the selection flips, and `onSelect`, when given, is
      called only when the card goes from unselected to selected. */
  function HandleCardClick(isSelected: bool, hasOnSelect: bool): (c: Click)
    ensures c.selected == !isSelected
    ensures c.notified <==> hasOnSelect && c.selected
  {
    Click(!isSelected, hasOnSelect && !isSelected)
  }

  /** Two clicks restore the selection and call `onSelect` exactly once when
      there is one. */
  lemma TwoClicks(isSelected: bool, hasOnSelect: bool)
    ensures var first := HandleCardClick(isSelected, hasOnSelect);
      var second := HandleCardClick(first.selected, hasOnSelect);
      second.selected == isSelected
      && (first.notified || second.notified) == hasOnSelect
      && !(first.notified && second.notified)
  {
  }
}
