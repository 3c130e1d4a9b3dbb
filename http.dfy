/** HTTP header fields as the extension's scripts see them. */
module Http {
  import opened JsStrings

  /** One header field: a `{name, value}` record of the web-request API, or one entry of a `Headers` object. */
  datatype Header = Header(name: string, value: string)

  /** The field's name matches `lowered` without regard to case. */
  predicate Named(h: Header, lowered: string) {
    Lower(h.name) == lowered
  }

  /** `Headers.has(name)` for a lower-case `name`: some field carries that name, in any case. */
  predicate Has(hs: seq<Header>, lowered: string) {
    exists i :: 0 <= i < |hs| && Named(hs[i], lowered)
  }
}
