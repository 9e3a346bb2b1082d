/**
 * The constants of core/config.py that the modelled code reads. Reading the
 * environment at import time is not modelled: a Config value is what the
 * class attributes hold. ENABLE_WEB_CRAWLING is read by the RAG chain but is
 * not an attribute of the shipped class; None stands for that absence, so
 * reading it raises AttributeError.
 */
module Settings {
  import opened Values

  datatype Config = Config(
    chunkSize: int,
    chunkOverlap: int,
    crawlMaxPages: int,
    searchK: int,
    enableWebCrawling: Option<bool>)

  /** The defaults of core/config.py, with no ENABLE_WEB_CRAWLING attribute. */
  const Shipped := Config(1000, 200, 20, 5, None)

  /** Python's `x or default` for an optional integer argument: None and 0 are falsy. */
  function OrDefault(x: Option<int>, default: int): (r: int)
    ensures x.Some? && x.value != 0 ==> r == x.value
    ensures x.None? || x.value == 0 ==> r == default
  {
    match x
    case None => default
    case Some(v) => if v != 0 then v else default
  }
}
