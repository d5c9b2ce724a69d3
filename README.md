# NYTimesSource connector, modelled in Dafny

`NYTimesSource` is a source plugin for a batch-ingestion pipeline. It queries
the New York Times article-search endpoint page by page. It reshapes each
returned document into a flat record and yields one batch per page until a
page comes back empty or a row budget is used up. It also declares a fixed
column schema.

The model keeps the three pieces of logic that do not depend on the network.

- `news_types.dfy` (module `NewsTypes`) holds the parsed search response as
  datatypes. Every JSON key the connector reads is an `Option`, so an absent
  key is a value (`None`). It also holds the flat `Record`, the `Config`
  (api key and query) and `Fetch`, the HTTP request plus JSON parsing, given
  as a function from `(api-key, q, page)` to the parsed body.
- `normalize.dfy` (module `Normalize`) holds `getKeywords` and the mapping
  loop of `get_news_items`. The specification functions are `Keywords`,
  `ToRecord`, `MapDocs` and `NewsItems`. The methods `GetKeywords`, `NewsItem`
  and `GetNewsItems` are the loops of the source, proved equal to them. A
  Python `KeyError` is `Err(KeyError(key))`. The key it names follows the
  order in which the dict literal reads the document.
- `paging.dfy` (module `Paging`) holds `getDataBatch`. `RunFrom` and `Batches`
  give the finite run of the generator: the batches yielded, the number of
  pages requested, and the error that ended it, if any. `GetDataBatch` is the
  `while True` loop with its two exits, proved equal to `Batches`.
- `schema.dfy` (module `Schema`) holds `getSchema`, the keys of a record, and
  the mismatch between the two.

## Model

| member | source | states |
|---|---|---|
| `Normalize.KeywordsSpec` | backend-get-items-from-news-api.py:31-36 | getKeywords succeeds exactly when every keyword object has `value`; the result then has the input's length and element i is object i's `value` (order kept, empty gives empty); otherwise the error is KeyError('value') |
| `Normalize.GetKeywords` | backend-get-items-from-news-api.py:31-36 | the append loop returns exactly `Keywords(kws)` |
| `Normalize.ToRecord` | backend-get-items-from-news-api.py:52-60 | a document maps exactly when every read key is present; title = headline.main, body = snippet, web_url, created_at = pub_date, id = _id, abstract, keywords = the keyword values in order; an error names a key the document really lacks |
| `Normalize.NewsItem` | backend-get-items-from-news-api.py:52-59 | the dict literal, evaluated key by key and calling getKeywords, gives exactly `ToRecord(doc)` |
| `Normalize.MapDocsFirstFailure` | backend-get-items-from-news-api.py:51-61 | the first document that fails to map decides the error of the whole page; no partial list comes back |
| `Normalize.MapDocsAllOk` | backend-get-items-from-news-api.py:51-61 | when every document maps, the page has exactly one record per document, record i built from document i |
| `Normalize.MapDocsSpec` | backend-get-items-from-news-api.py:51-61 | a document list maps exactly when every document does; otherwise the error is the first failing document's |
| `Normalize.NewsItemsSpec` | backend-get-items-from-news-api.py:49-63 | no `response` or no `docs` gives an empty list, not an error; otherwise the page fails exactly when some document is incomplete, with a key missing from the first such document; on success one record per document, in order |
| `Normalize.GetNewsItems` | backend-get-items-from-news-api.py:38-63 | the request followed by the mapping loop returns exactly `NewsItems` of the fetched response |
| `Paging.RunFromShape` | backend-get-items-from-news-api.py:75-83 | batch k is the records of page k and is never empty; pages are requested consecutively; at most one requested page is not yielded, and it is the empty or the failing one; a run that yields every page it requests stopped on the budget and not before; a page requested after a yielded one is within the budget, so a run never fetches or raises past it |
| `Paging.PagesForBudget` | backend-get-items-from-news-api.py:81-83 | the number of pages the budget allows is the least n >= 1 with n * 10 >= budget |
| `Paging.BatchesAtMostBudget` | backend-get-items-from-news-api.py:81-83 | no run yields, or requests, more than max(1, ceil(budget / 10)) pages; a budget of at most 10 gives at most one batch |
| `Paging.BatchesWhenAlwaysFull` | backend-get-items-from-news-api.py:75-83 | if no page is ever empty or failing, there are exactly max(1, ceil(budget / 10)) batches, pages 0, 1, ... in order, and no page is requested without being yielded |
| `Paging.RunFromStopsAtEmpty` | backend-get-items-from-news-api.py:76-80 | a run entered at a page reaches the first empty page within the budget, yields exactly the full pages before it, and does not yield the empty page |
| `Paging.BatchesStopAtEmptyPage` | backend-get-items-from-news-api.py:75-80 | when page e is the first empty page and the budget allows it, getDataBatch yields exactly pages 0 .. e - 1 and requests e + 1 pages |
| `Paging.RunFromStep` | backend-get-items-from-news-api.py:76-83 | one turn of the loop: a failing page ends the run with its error, an empty page ends it unyielded, a full page is yielded and then either the budget ends the run or the next page is requested |
| `Paging.GetDataBatch` | backend-get-items-from-news-api.py:65-83 | the loop yields exactly the batches of `Batches`, raises exactly its error, and requests pages 0, 1, 2, ... in order |
| `Schema.GetSchema` | backend-get-items-from-news-api.py:85-102 | seven distinct column names, always the same ordered list title, body, created_at, id, summary, abstract, keywords |
| `Schema.Field` | backend-get-items-from-news-api.py:52-60 | a record has a string value under exactly its six string keys |
| `Schema.SchemaMismatch` | backend-get-items-from-news-api.py:92-102 | the schema names `summary`, which no record has, and omits `web_url`, which every record has; the other six names agree |

The rows above are the members whose contracts state the properties. They
describe these definitions, which carry no contract of their own:
`Normalize.Keywords` (backend-get-items-from-news-api.py:31-36),
`Normalize.MapDocs` (backend-get-items-from-news-api.py:51-61),
`Normalize.NewsItems` (backend-get-items-from-news-api.py:49-63),
`Paging.RunFrom` (backend-get-items-from-news-api.py:76-83),
`Paging.Batches` (backend-get-items-from-news-api.py:75-83) and
`Schema.RecordKeys`, the keys of the dict literal
(backend-get-items-from-news-api.py:52-60).

## Left out

- `requests.get` and `response.json()` are not modelled. The HTTP call and the JSON parser are a function parameter (`Fetch`). Transport errors, non-2xx replies and malformed JSON are not modelled.
- JSON values are modelled as strings or absent. A field holding another JSON type, such as null or a number, is not modelled. Neither is a `response` value that is not an object.
- `connect` only logs its two arguments, and `disconnect` does nothing. Neither is modelled.
- The `self.args` attribute bag is replaced by a `Config` value passed to `GetDataBatch`.
- The `__main__` demo, with its fixed key and its print loop, is not modelled.
- GetDataBatch: generator laziness is not modelled. The generator is modelled by the finite run it would produce if consumed to the end: the batches, the pages requested, and the error that ended it. A consumer that stops early sees a prefix of these batches.
- The schema mismatch is proved as a fact about the source (`Schema.SchemaMismatch`). It is not corrected, because the intended schema cannot be told from the code.
