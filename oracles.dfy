/** The steps of `process_url` that run foreign code, as the converters see them. The icon
    step (base64 decoding, opening the image, resizing and saving it) either completes or
    raises. The page step (the HTTP request, encoding detection and HTML parsing) either
    yields the attribute maps of the page's `<meta>` tags, in document order, or raises.
    Both are parameters of the operations that use them. */
module Oracles {
  import opened Strings
  import Meta

  datatype Step = Done | Raised(msg: string)

  /** What `requests.get` is called with. */
  datatype Request = Request(url: string, proxies: map<string, string>, username: Option<string>, password: Option<string>)

  datatype Fetch = Page(tags: seq<Meta.Tag>) | FetchRaised(msg: string)
}
