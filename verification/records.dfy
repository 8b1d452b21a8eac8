/** The product record every stage of the scraper passes along. */
module Records {

  import opened Wrappers

  /**
   * One product: the dictionary `{"rank", "name", "link", "rating", "price"}`
   * the extractors build, with the optional `"asin"` entry the container
   * extractor adds; `asin` is None when the record has no such entry or its
   * value is None.
   */
  datatype Product = Product(
    rank: string,
    name: string,
    link: string,
    rating: string,
    price: string,
    asin: Option<string>)
}
