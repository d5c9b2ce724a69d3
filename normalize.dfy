/** Turning one parsed search response into flat records: getKeywords and the
    document-to-record loop of get_news_items. A missing key anywhere aborts the
    whole page with a KeyError; a response without `response.docs` gives no
    records at all. */
module Normalize {
  import opened NewsTypes

  /** Every keyword object carries a `value` key. */
  predicate AllHaveValue(kws: seq<Keyword>)
  {
    forall i :: 0 <= i < |kws| ==> kws[i].value.Some?
  }

  /** Specification of getKeywords: the `value` of each keyword object, in
      order, or KeyError('value') at the first object without one. */
  function Keywords(kws: seq<Keyword>): Result<seq<string>>
  {
    if kws == [] then Ok([])
    else if kws[0].value.None? then Err(KeyError("value"))
    else match Keywords(kws[1..])
      case Err(e) => Err(e)
      case Ok(rest) => Ok([kws[0].value.value] + rest)
  }

  /** getKeywords succeeds exactly when every object has a `value`; then it
      keeps the length and the order, element i being the value of object i. */
  lemma {:induction false} KeywordsSpec(kws: seq<Keyword>)
    ensures Keywords(kws).Ok? <==> AllHaveValue(kws)
    ensures Keywords(kws).Ok? ==>
      |Keywords(kws).value| == |kws| &&
      forall i :: 0 <= i < |kws| ==> Keywords(kws).value[i] == kws[i].value.value
    ensures Keywords(kws).Err? ==> Keywords(kws).error == KeyError("value")
  {
    if kws != [] {
      KeywordsSpec(kws[1..]);
      if kws[0].value.Some? && AllHaveValue(kws[1..]) {
        assert AllHaveValue(kws) by {
          forall i | 0 <= i < |kws| ensures kws[i].value.Some? {
            if i > 0 { assert kws[i] == kws[1..][i - 1]; }
          }
        }
      }
      if AllHaveValue(kws) {
        assert AllHaveValue(kws[1..]) by {
          forall i | 0 <= i < |kws| - 1 ensures kws[1..][i].value.Some? {
            assert kws[1..][i] == kws[i + 1];
          }
        }
      }
    }
  }

  /** getKeywords: appends the `value` of each keyword object to a list. */
  method GetKeywords(kws: seq<Keyword>) returns (r: Result<seq<string>>)
    ensures r == Keywords(kws)
  {
    var values: seq<string> := [];
    for i := 0 to |kws|
      invariant |values| == i
      invariant forall j :: 0 <= j < i ==> kws[j].value.Some? && values[j] == kws[j].value.value
    {
      if kws[i].value.None? {
        KeywordsSpec(kws);
        return Err(KeyError("value"));
      }
      values := values + [kws[i].value.value];
    }
    KeywordsSpec(kws);
    assert Keywords(kws).value == values;
    r := Ok(values);
  }

  /** Every key the record mapping reads is present in the document. */
  predicate Complete(doc: Doc)
  {
    && doc.headline.Some? && doc.headline.value.main.Some?
    && doc.snippet.Some? && doc.webUrl.Some? && doc.pubDate.Some?
    && doc.id.Some? && doc.abstractText.Some?
    && doc.keywords.Some? && AllHaveValue(doc.keywords.value)
  }

  /** `key` is a key the record mapping reads and the document lacks. */
  predicate Missing(doc: Doc, key: string)
  {
    || (key == "headline" && doc.headline.None?)
    || (key == "main" && doc.headline.Some? && doc.headline.value.main.None?)
    || (key == "snippet" && doc.snippet.None?)
    || (key == "web_url" && doc.webUrl.None?)
    || (key == "pub_date" && doc.pubDate.None?)
    || (key == "_id" && doc.id.None?)
    || (key == "abstract" && doc.abstractText.None?)
    || (key == "keywords" && doc.keywords.None?)
    || (key == "value" && doc.keywords.Some? && !AllHaveValue(doc.keywords.value))
  }

  /** The record built from one document. The keys are read in the order the
      dict literal evaluates them, so the KeyError names the first missing one. */
  function ToRecord(doc: Doc): (r: Result<Record>)
    ensures r.Ok? <==> Complete(doc)
    ensures r.Ok? ==>
      && r.value.title == doc.headline.value.main.value
      && r.value.body == doc.snippet.value
      && r.value.webUrl == doc.webUrl.value
      && r.value.createdAt == doc.pubDate.value
      && r.value.id == doc.id.value
      && r.value.abstractText == doc.abstractText.value
      && |r.value.keywords| == |doc.keywords.value|
      && forall i :: 0 <= i < |doc.keywords.value| ==>
           r.value.keywords[i] == doc.keywords.value[i].value.value
    ensures r.Err? ==> Missing(doc, r.error.key)
  {
    if doc.headline.None? then Err(KeyError("headline"))
    else if doc.headline.value.main.None? then Err(KeyError("main"))
    else if doc.snippet.None? then Err(KeyError("snippet"))
    else if doc.webUrl.None? then Err(KeyError("web_url"))
    else if doc.pubDate.None? then Err(KeyError("pub_date"))
    else if doc.id.None? then Err(KeyError("_id"))
    else if doc.abstractText.None? then Err(KeyError("abstract"))
    else if doc.keywords.None? then Err(KeyError("keywords"))
    else
      KeywordsSpec(doc.keywords.value);
      match Keywords(doc.keywords.value)
      case Err(e) => Err(e)
      case Ok(values) =>
        Ok(Record(doc.headline.value.main.value, doc.snippet.value, doc.webUrl.value,
                  doc.pubDate.value, doc.id.value, doc.abstractText.value, values))
  }

  /** One iteration of the mapping loop: the dict literal for one document,
      with getKeywords called on its `keywords` array. */
  method NewsItem(doc: Doc) returns (r: Result<Record>)
    ensures r == ToRecord(doc)
  {
    if doc.headline.None? { return Err(KeyError("headline")); }
    var headline := doc.headline.value;
    if headline.main.None? { return Err(KeyError("main")); }
    if doc.snippet.None? { return Err(KeyError("snippet")); }
    if doc.webUrl.None? { return Err(KeyError("web_url")); }
    if doc.pubDate.None? { return Err(KeyError("pub_date")); }
    if doc.id.None? { return Err(KeyError("_id")); }
    if doc.abstractText.None? { return Err(KeyError("abstract")); }
    if doc.keywords.None? { return Err(KeyError("keywords")); }
    var keywords := GetKeywords(doc.keywords.value);
    if keywords.Err? { return Err(keywords.error); }
    r := Ok(Record(headline.main.value, doc.snippet.value, doc.webUrl.value,
                   doc.pubDate.value, doc.id.value, doc.abstractText.value, keywords.value));
  }

  /** The records of a document list, in document order; the first document
      that fails to map aborts the whole list. */
  function MapDocs(docs: seq<Doc>): Result<seq<Record>>
  {
    if docs == [] then Ok([])
    else match ToRecord(docs[0])
      case Err(e) => Err(e)
      case Ok(rec) =>
        match MapDocs(docs[1..])
        case Err(e) => Err(e)
        case Ok(rest) => Ok([rec] + rest)
  }

  /** Document i is the first one that fails to map. */
  predicate FirstFailure(docs: seq<Doc>, i: int)
  {
    && 0 <= i < |docs|
    && ToRecord(docs[i]).Err?
    && forall j :: 0 <= j < i ==> ToRecord(docs[j]).Ok?
  }

  /** The first failing document decides the error of the whole list. */
  lemma {:induction false} MapDocsFirstFailure(docs: seq<Doc>, i: int)
    requires FirstFailure(docs, i)
    ensures MapDocs(docs) == Err(ToRecord(docs[i]).error)
  {
    if i > 0 {
      assert FirstFailure(docs[1..], i - 1) by {
        forall j | 0 <= j < i - 1 ensures ToRecord(docs[1..][j]).Ok? {
          assert docs[1..][j] == docs[j + 1];
        }
      }
      MapDocsFirstFailure(docs[1..], i - 1);
    }
  }

  /** When every document maps, the list holds exactly one record per
      document, in document order. */
  lemma {:induction false} MapDocsAllOk(docs: seq<Doc>)
    requires forall i :: 0 <= i < |docs| ==> ToRecord(docs[i]).Ok?
    ensures MapDocs(docs).Ok?
    ensures |MapDocs(docs).value| == |docs|
    ensures forall i :: 0 <= i < |docs| ==> MapDocs(docs).value[i] == ToRecord(docs[i]).value
  {
    if docs != [] {
      assert forall i :: 0 <= i < |docs| - 1 ==> docs[1..][i] == docs[i + 1];
      MapDocsAllOk(docs[1..]);
      var rest := MapDocs(docs[1..]).value;
      assert MapDocs(docs).value == [ToRecord(docs[0]).value] + rest;
    }
  }

  /** The document list maps without error exactly when every document does;
      otherwise the error is that of the first failing document. */
  lemma {:induction false} MapDocsSpec(docs: seq<Doc>)
    ensures MapDocs(docs).Ok? <==> forall i :: 0 <= i < |docs| ==> ToRecord(docs[i]).Ok?
    ensures MapDocs(docs).Ok? ==>
      |MapDocs(docs).value| == |docs| &&
      forall i :: 0 <= i < |docs| ==> MapDocs(docs).value[i] == ToRecord(docs[i]).value
    ensures MapDocs(docs).Err? ==>
      exists i :: FirstFailure(docs, i) && MapDocs(docs).error == ToRecord(docs[i]).error
  {
    if forall i :: 0 <= i < |docs| ==> ToRecord(docs[i]).Ok? {
      MapDocsAllOk(docs);
    } else {
      var i := FirstFailureIndex(docs, 0);
      MapDocsFirstFailure(docs, i);
    }
  }

  /** The index of the first document at or after `from` that fails to map,
      given that the documents before `from` all map and some document fails. */
  function FirstFailureIndex(docs: seq<Doc>, from: nat): (i: int)
    requires from <= |docs|
    requires forall j :: 0 <= j < from ==> ToRecord(docs[j]).Ok?
    requires exists j :: 0 <= j < |docs| && ToRecord(docs[j]).Err?
    ensures FirstFailure(docs, i)
    decreases |docs| - from
  {
    if ToRecord(docs[from]).Err? then from else FirstFailureIndex(docs, from + 1)
  }

  /** The `response.docs` array of a parsed response, if both keys exist. */
  function DocsOf(data: SearchResult): Option<seq<Doc>>
  {
    if data.response.Some? then data.response.value.docs else None
  }

  /** Specification of get_news_items once the response is parsed: no records
      when `response.docs` is absent, the mapped documents otherwise. */
  function NewsItems(data: SearchResult): Result<seq<Record>>
  {
    match DocsOf(data)
    case None => Ok([])
    case Some(docs) => MapDocs(docs)
  }

  /** get_news_items never fails on a response without `response` or without
      `response.docs`; otherwise it fails exactly when some document lacks a
      field, and then returns nothing; on success it returns one record per
      document, in order, each built field by field from its document. */
  lemma NewsItemsSpec(data: SearchResult)
    ensures DocsOf(data).None? ==> NewsItems(data) == Ok([])
    ensures DocsOf(data).Some? ==>
      (NewsItems(data).Ok? <==> forall i :: 0 <= i < |DocsOf(data).value| ==> Complete(DocsOf(data).value[i]))
    ensures DocsOf(data).Some? && NewsItems(data).Ok? ==>
      |NewsItems(data).value| == |DocsOf(data).value| &&
      forall i :: 0 <= i < |DocsOf(data).value| ==>
        Ok(NewsItems(data).value[i]) == ToRecord(DocsOf(data).value[i])
    ensures NewsItems(data).Err? ==>
      exists i :: FirstFailure(DocsOf(data).value, i) &&
        Missing(DocsOf(data).value[i], NewsItems(data).error.key)
  {
    if DocsOf(data).Some? {
      MapDocsSpec(DocsOf(data).value);
    }
  }

  /** get_news_items: one request for the page, then the mapping loop that
      appends one record per document. */
  method GetNewsItems(fetch: Fetch, apiKey: string, query: string, page: nat)
    returns (r: Result<seq<Record>>)
    ensures r == NewsItems(fetch(apiKey, query, page))
  {
    var data := fetch(apiKey, query, page);
    var newsItems: seq<Record> := [];
    if data.response.Some? && data.response.value.docs.Some? {
      var docs := data.response.value.docs.value;
      for i := 0 to |docs|
        invariant |newsItems| == i
        invariant forall j :: 0 <= j < i ==> ToRecord(docs[j]) == Ok(newsItems[j])
      {
        var item := NewsItem(docs[i]);
        if item.Err? {
          MapDocsFirstFailure(docs, i);
          return Err(item.error);
        }
        newsItems := newsItems + [item.value];
      }
      MapDocsAllOk(docs);
      assert MapDocs(docs).value == newsItems;
    }
    r := Ok(newsItems);
  }
}
