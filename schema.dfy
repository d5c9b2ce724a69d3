/** getSchema: the column names the connector declares, and how they compare
    with the keys every record actually carries. */
module Schema {
  import opened NewsTypes

  /** Seven distinct column names, identical on every call, among them
      `summary` and without `web_url`. */
  function GetSchema(): (s: seq<string>)
    ensures |s| == 7
    ensures forall i, j :: 0 <= i < j < |s| ==> s[i] != s[j]
    ensures s[0] == "title" && s[1] == "body" && s[2] == "created_at" && s[3] == "id"
    ensures s[4] == "summary" && s[5] == "abstract" && s[6] == "keywords"
  {
    ["title", "body", "created_at", "id", "summary", "abstract", "keywords"]
  }

  /** The keys of the dict built for each document, in the order the literal
      lists them. */
  function RecordKeys(): seq<string>
  {
    ["title", "body", "web_url", "created_at", "id", "abstract", "keywords"]
  }

  /** The value a record holds under one of its keys (the keyword list is not
      a string and has no entry here). */
  function Field(rec: Record, key: string): (v: Option<string>)
    ensures v.Some? <==> key in RecordKeys() && key != "keywords"
  {
    match key
    case "title" => Some(rec.title)
    case "body" => Some(rec.body)
    case "web_url" => Some(rec.webUrl)
    case "created_at" => Some(rec.createdAt)
    case "id" => Some(rec.id)
    case "abstract" => Some(rec.abstractText)
    case _ => None
  }

  /** The declared schema and the record keys agree on six names only: the
      schema's `summary` is a key no record has, and the record key `web_url`,
      which every record fills, is missing from the schema. */
  lemma SchemaMismatch()
    ensures "summary" in GetSchema() && "summary" !in RecordKeys()
    ensures "web_url" in RecordKeys() && "web_url" !in GetSchema()
    ensures forall c :: c in GetSchema() && c != "summary" ==> c in RecordKeys()
    ensures forall k :: k in RecordKeys() && k != "web_url" ==> k in GetSchema()
    ensures forall rec: Record :: Field(rec, "summary") == None && Field(rec, "web_url") == Some(rec.webUrl)
  {
  }
}
