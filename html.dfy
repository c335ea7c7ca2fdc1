/** What the handlers see of colly's `HTMLElement`. Selector matching and URL parsing belong
    to colly and goquery; the element arrives already matched. */
module Html {

  /** The request that fetched the page. `absoluteURL` is colly's `Request.AbsoluteURL`,
      which resolves a link against this request's URL; it is left uninterpreted. */
  datatype Request = Request(url: string, absoluteURL: string -> string)

  datatype Element = Element(text: string, attributes: map<string, string>, request: Request)

  /** `HTMLElement.Attr`: the attribute's value, or "" when the element has no such attribute. */
  function Attr(e: Element, name: string): string {
    if name in e.attributes then e.attributes[name] else ""
  }
}
