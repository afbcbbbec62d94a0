/** The chat request sent for one image: a single user message whose content is the image,
    as a base64 data URI, followed by the text prompt. */
module Request {
  import opened Options

  /** One content part of a message: `{"type": "image_url", ...}` or `{"type": "text", ...}`. */
  datatype ContentPart =
    | ImageUrl(url: string)
    | Text(text: string)

  datatype Message = Message(role: string, content: seq<ContentPart>)

  /** What is handed to the chat-completions endpoint. */
  datatype ChatRequest = ChatRequest(model: string, messages: seq<Message>, stream: bool)

  /** The fields a request carries, as read back from its messages. */
  datatype ImageQuery = ImageQuery(contentType: string, payload: string, query: string)

  const DataPrefix: string := "data:"
  const Base64Marker: string := ";base64,"

  /** `data:<mime>;base64,<payload>`. */
  function DataUri(contentType: string, payload: string): string
  {
    DataPrefix + contentType + Base64Marker + payload
  }

  /** The messages `process_query` builds. */
  function BuildMessages(contentType: string, payload: string, query: string): (ms: seq<Message>)
    ensures |ms| == 1 && ms[0].role == "user" && |ms[0].content| == 2
    ensures ms[0].content[0].ImageUrl? && ms[0].content[1].Text?
  {
    [Message("user", [ImageUrl(DataUri(contentType, payload)), Text(query)])]
  }

  /** The first position of `c` in `s`, or `|s|` when there is none. */
  function IndexOf(s: string, c: char): (i: nat)
    ensures i <= |s|
    ensures forall j :: 0 <= j < i ==> s[j] != c
    ensures i < |s| ==> s[i] == c
  {
    if s == [] then 0
    else if s[0] == c then 0
    else 1 + IndexOf(s[1..], c)
  }

  /** Reads a `data:<mime>;base64,<payload>` URI back into its MIME type and payload; the
      MIME type ends at the first `;`. */
  function ParseDataUri(url: string): Option<(string, string)>
  {
    if |url| < |DataPrefix| || url[..|DataPrefix|] != DataPrefix then None
    else
      var rest := url[|DataPrefix|..];
      var i := IndexOf(rest, ';');
      if |rest| - i < |Base64Marker| || rest[i..i + |Base64Marker|] != Base64Marker then None
      else Some((rest[..i], rest[i + |Base64Marker|..]))
  }

  /** Reads the content type, payload and prompt back from a message list of the built shape. */
  function ReadMessages(ms: seq<Message>): Option<ImageQuery>
  {
    if |ms| != 1 || ms[0].role != "user" || |ms[0].content| != 2 then None
    else if !ms[0].content[0].ImageUrl? || !ms[0].content[1].Text? then None
    else
      match ParseDataUri(ms[0].content[0].url)
      case None => None
      case Some((contentType, payload)) => Some(ImageQuery(contentType, payload, ms[0].content[1].text))
  }

  /** The data URI gives back the MIME type and payload it was built from, provided the MIME
      type has no `;` in it. */
  lemma {:induction false} DataUriRoundTrip(contentType: string, payload: string)
    requires ';' !in contentType
    ensures ParseDataUri(DataUri(contentType, payload)) == Some((contentType, payload))
  {
    var url := DataUri(contentType, payload);
    var rest := url[|DataPrefix|..];
    assert url[..|DataPrefix|] == DataPrefix;
    assert rest == contentType + Base64Marker + payload;
    var i := IndexOf(rest, ';');
    assert rest[|contentType|] == ';';
    assert i == |contentType|;
    assert rest[i..i + |Base64Marker|] == Base64Marker;
    assert rest[..i] == contentType;
    assert rest[i + |Base64Marker|..] == payload;
  }

  /** Round trip: the built messages carry exactly one user turn with the image first and
      the prompt second, and the image part holds the MIME type and payload it was given. */
  lemma BuildThenRead(contentType: string, payload: string, query: string)
    requires ';' !in contentType
    ensures ReadMessages(BuildMessages(contentType, payload, query)) == Some(ImageQuery(contentType, payload, query))
  {
    DataUriRoundTrip(contentType, payload);
  }
}
