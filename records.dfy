/**
 * The dictionaries the pipeline passes around. A tender at every stage (listing stub,
 * detail record, merged record, cleaned record) is a Python dict from field name to
 * value; the values that occur are None, a str, or the list of attachment dicts.
 */
module Records {
  import opened Wrappers

  /** The keys of a tender dict: `tender_id`, `title`, `source_url`, and so on. */
  datatype Field =
    | TenderId | Title | SourceUrl | Organization | PublishDate | TenderType
    | ClosingDate | Description | Attachments

  /** The `url` key of an attachment dict: missing, or present with None or a str. */
  datatype UrlField = NoUrlKey | Url(url: Option<string>)

  /**
   * One element of an `attachments` list: a dict, of which only `name` (read with
   * `.get`, so a missing key is None) and `url` matter, or anything else.
   */
  datatype Entry =
    | Dict(name: Option<string>, url: UrlField)
    | NotADict

  datatype Value =
    | Null
    | Str(s: string)
    | List(items: seq<Entry>)

  /** A tender dict; a missing key is a key not in the map. */
  type Record = map<Field, Value>

  /** Python truthiness: None, "" and [] are false. */
  predicate Truthy(v: Value) {
    match v
    case Null => false
    case Str(s) => s != []
    case List(items) => items != []
  }

  /** `d.get(k)` */
  function Get(d: Record, k: Field): Value {
    if k in d then d[k] else Null
  }

  /** The str under a text field, if any; a list under a text field is treated as absent. */
  function TextOf(v: Value): Option<string> {
    if v.Str? then Some(v.s) else None
  }

  function FromText(t: Option<string>): (v: Value)
    ensures TextOf(v) == t
    ensures Truthy(v) <==> t.Some? && t.value != []
  {
    match t
    case None => Null
    case Some(s) => Str(s)
  }

  /** `{'name': name, 'url': url}`, the attachment dict the parser and the cleaner build. */
  function Attachment(name: string, url: string): Entry {
    Dict(Some(name), Url(Some(url)))
  }
}
