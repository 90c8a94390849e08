/**
 * Static-resource resolution in Http11Processor: which classpath
 * resource answers a request URL, and which Content-Type it is sent with.
 */
module Http11Paths {
  import opened Text

  const Static: string := "/static"
  const Html: string := ".html"
  const Css: string := ".css"
  const Js: string := ".js"
  const Svg: string := ".svg"

  const StatusOk: string := "200 OK"
  const IndexPage: string := Static + "/index.html"
  const NotFoundIcon: string := Static + "/assets/img/error-404-monochrome.svg"

  const TextCss: string := "text/css"
  const ApplicationJavascript: string := "application/javascript"
  const ImageSvg: string := "image/svg+xml"
  const TextHtml: string := "text/html;charset=utf-8"

  /** The pair determineResourcePath returns: a status and a resource path. */
  datatype ResourceTarget = ResourceTarget(status: string, path: string)

  /**
   * determineResourcePath. The checks run in this order: the index page,
   * any .svg URL (always the fixed not-found icon), .html/.css/.js URLs
   * served from under /static as they are, anything else as a page
   * with ".html" appended.
   */
  function DetermineResourcePath(requestUrl: string): (r: ResourceTarget)
    ensures r.status == StatusOk
    ensures StartsWith(r.path, Static)
  {
    if requestUrl == "/" || requestUrl == "/index.html" then
      ResourceTarget(StatusOk, IndexPage)
    else if EndsWith(requestUrl, Svg) then
      ResourceTarget(StatusOk, NotFoundIcon)
    else if EndsWith(requestUrl, Html) || EndsWith(requestUrl, Css) || EndsWith(requestUrl, Js) then
      ResourceTarget(StatusOk, Static + requestUrl)
    else
      ResourceTarget(StatusOk, Static + requestUrl + Html)
  }

  /** determineContentType: by the resource path's suffix, HTML otherwise. */
  function DetermineContentType(resourcePath: string): (r: string)
    ensures r in {TextCss, ApplicationJavascript, ImageSvg, TextHtml}
    ensures r == TextHtml <==> !EndsWith(resourcePath, Css) && !EndsWith(resourcePath, Js) && !EndsWith(resourcePath, Svg)
  {
    if EndsWith(resourcePath, Css) then TextCss
    else if EndsWith(resourcePath, Js) then ApplicationJavascript
    else if EndsWith(resourcePath, Svg) then ImageSvg
    else TextHtml
  }

  /** What each extension fixes about the last characters of a string. */
  lemma ExtensionLastChars(s: string)
    ensures EndsWith(s, Css) ==> s[|s| - 1] == 's' && s[|s| - 2] == 's'
    ensures EndsWith(s, Js) ==> s[|s| - 1] == 's' && s[|s| - 2] == 'j'
    ensures EndsWith(s, Svg) ==> s[|s| - 1] == 'g'
    ensures EndsWith(s, Html) ==> s[|s| - 1] == 'l'
  {
  }

  /** The extensions are pairwise exclusive: no string ends with two of them. */
  lemma ExtensionsExclusive(s: string)
    ensures !(EndsWith(s, Css) && EndsWith(s, Js))
    ensures !(EndsWith(s, Css) && EndsWith(s, Svg))
    ensures !(EndsWith(s, Css) && EndsWith(s, Html))
    ensures !(EndsWith(s, Js) && EndsWith(s, Svg))
    ensures !(EndsWith(s, Js) && EndsWith(s, Html))
    ensures !(EndsWith(s, Svg) && EndsWith(s, Html))
  {
    ExtensionLastChars(s);
  }

  /** The path resolved for a URL that needs no ".html" appended, or is the index. */
  lemma ResolvedPathKeepsExtension(requestUrl: string)
    requires requestUrl != "/" && requestUrl != "/index.html" && !EndsWith(requestUrl, Svg)
    requires EndsWith(requestUrl, Html) || EndsWith(requestUrl, Css) || EndsWith(requestUrl, Js)
    ensures var p := DetermineResourcePath(requestUrl).path;
      && (EndsWith(requestUrl, Html) ==> EndsWith(p, Html))
      && (EndsWith(requestUrl, Css) ==> EndsWith(p, Css))
      && (EndsWith(requestUrl, Js) ==> EndsWith(p, Js))
  {
  }

  /** A path with ".html" appended ends in ".html". */
  lemma AppendedHtml(prefix: string)
    ensures EndsWith(prefix + Html, Html)
  {
  }

  lemma IconIsSvg()
    ensures EndsWith(NotFoundIcon, Svg)
  {
  }

  /** Every resolved resource path carries one of the four known extensions. */
  lemma ResolvedPathHasKnownExtension(requestUrl: string)
    ensures var p := DetermineResourcePath(requestUrl).path;
      EndsWith(p, Html) || EndsWith(p, Css) || EndsWith(p, Js) || EndsWith(p, Svg)
  {
    var p := DetermineResourcePath(requestUrl).path;
    if requestUrl == "/" || requestUrl == "/index.html" {
      AppendedHtml(Static + "/index");
    } else if EndsWith(requestUrl, Svg) {
      IconIsSvg();
    } else if EndsWith(requestUrl, Html) || EndsWith(requestUrl, Css) || EndsWith(requestUrl, Js) {
      ResolvedPathKeepsExtension(requestUrl);
    } else {
      AppendedHtml(Static + requestUrl);
    }
  }

  /**
   * The Content-Type a GET is answered with follows the URL's own
   * extension: .css, .js and .svg get their types, every other URL
   * (".html" ones and those resolved by appending ".html") gets HTML.
   */
  lemma ContentTypeFollowsUrl(requestUrl: string)
    ensures var t := DetermineContentType(DetermineResourcePath(requestUrl).path);
      && (EndsWith(requestUrl, Css) ==> t == TextCss)
      && (EndsWith(requestUrl, Js) ==> t == ApplicationJavascript)
      && (EndsWith(requestUrl, Svg) ==> t == ImageSvg)
      && (!EndsWith(requestUrl, Css) && !EndsWith(requestUrl, Js) && !EndsWith(requestUrl, Svg) ==> t == TextHtml)
  {
    var p := DetermineResourcePath(requestUrl).path;
    ExtensionsExclusive(requestUrl);
    ExtensionsExclusive(p);
    if requestUrl == "/" || requestUrl == "/index.html" {
      AppendedHtml(Static + "/index");
      ExtensionLastChars(requestUrl);
    } else if EndsWith(requestUrl, Svg) {
      IconIsSvg();
    } else if EndsWith(requestUrl, Html) || EndsWith(requestUrl, Css) || EndsWith(requestUrl, Js) {
      ResolvedPathKeepsExtension(requestUrl);
    } else {
      AppendedHtml(Static + requestUrl);
    }
  }

  /** A URL resolved by appending ".html" is always served as HTML. */
  lemma HtmlFallbackIsHtml(requestUrl: string)
    requires requestUrl != "/" && requestUrl != "/index.html"
    requires !EndsWith(requestUrl, Svg) && !EndsWith(requestUrl, Html)
    requires !EndsWith(requestUrl, Css) && !EndsWith(requestUrl, Js)
    ensures EndsWith(DetermineResourcePath(requestUrl).path, Html)
    ensures DetermineContentType(DetermineResourcePath(requestUrl).path) == TextHtml
  {
    AppendedHtml(Static + requestUrl);
    ExtensionsExclusive(DetermineResourcePath(requestUrl).path);
  }
}
