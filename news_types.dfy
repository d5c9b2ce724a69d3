/** The values the NYTimesSource connector works on: the parsed article-search
    response (a tree of JSON objects in which any key may be missing), the flat
    record built from each article, and the connector's configuration. */
module NewsTypes {

  datatype Option<+T> = None | Some(value: T)

  /** Python's KeyError: indexing a JSON object with a key it does not have. */
  datatype KeyError = KeyError(key: string)

  /** Either a value or the KeyError that aborted the computation. */
  datatype Result<+T> = Ok(value: T) | Err(error: KeyError)

  /** One object of a document's `keywords` array; only its `value` key is read. */
  datatype Keyword = Keyword(value: Option<string>)

  /** A document's `headline` object; only its `main` key is read. */
  datatype Headline = Headline(main: Option<string>)

  /** One element of `response.docs`; a field is None when the key is absent. */
  datatype Doc = Doc(
    headline: Option<Headline>,
    snippet: Option<string>,
    webUrl: Option<string>,
    pubDate: Option<string>,
    id: Option<string>,
    abstractText: Option<string>,
    keywords: Option<seq<Keyword>>
  )

  /** The object under the top-level `response` key. */
  datatype ResponseBody = ResponseBody(docs: Option<seq<Doc>>)

  /** The whole parsed JSON body of one search request. */
  datatype SearchResult = SearchResult(response: Option<ResponseBody>)

  /** The flat record built from one document (keys title, body, web_url,
      created_at, id, abstract, keywords). */
  datatype Record = Record(
    title: string,
    body: string,
    webUrl: string,
    createdAt: string,
    id: string,
    abstractText: string,
    keywords: seq<string>
  )

  /** The credential and the search string the connector is configured with. */
  datatype Config = Config(apiKey: string, query: string)

  /** The HTTP GET of the search endpoint followed by JSON parsing: given the
      api-key, q and page parameters, the parsed response body. */
  type Fetch = (string, string, nat) -> SearchResult
}
