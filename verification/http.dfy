/**
 * The shapes of the HTTP requests the pages send with axios: a multipart `FormData`
 * body (built with `append`), a JSON object, or no body.
 */
module Http {
  import opened Optional
  import opened Menu

  /** One part of a multipart `FormData` body. */
  datatype Part = TextPart(text: string) | FilePart(file: ImageFile)
  datatype Entry = Entry(key: string, part: Part)

  /** `formData.get(key)`: the part of the first entry with the key. */
  function FormGet(body: seq<Entry>, key: string): Option<Part> {
    if body == [] then None
    else if FormGet(body[..|body| - 1], key).Some? then FormGet(body[..|body| - 1], key)
    else if body[|body| - 1].key == key then Some(body[|body| - 1].part)
    else None
  }

  /** Appending an entry only answers keys the body did not have yet. */
  lemma FormGetAppend(body: seq<Entry>, e: Entry)
    ensures forall key :: (FormGet(body + [e], key) ==
      if FormGet(body, key).Some? then FormGet(body, key)
      else if e.key == key then Some(e.part)
      else None)
  {
    assert (body + [e])[..|body|] == body;
  }

  /** `formData.append(e.key, e.part)` */
  method Append(body: seq<Entry>, e: Entry) returns (r: seq<Entry>)
    ensures r == body + [e]
    ensures forall key :: (FormGet(r, key) ==
      if FormGet(body, key).Some? then FormGet(body, key)
      else if e.key == key then Some(e.part)
      else None)
  {
    r := body + [e];
    FormGetAppend(body, e);
  }

  /** A JSON value; a `parseFloat` result is kept as the text it was parsed from. */
  datatype Json = Str(s: string) | ParsedNumber(text: string)

  datatype Body = Multipart(entries: seq<Entry>) | JsonObject(fields: map<string, Json>) | NoBody

  datatype Verb = Get | Post | Put | Delete
  datatype Request = Request(verb: Verb, url: string, body: Body)
}
