/**
 * The request the client would send, as an abstract descriptor: method, URL,
 * headers and query pairs in the order they were added, a body, the cookies
 * and the authorization credentials. The services the client calls out to (reading a
 * file, parsing JSON, parsing a URL, prompting for a password) are supplied as
 * an environment of functions.
 */
module Requests {
  import opened Results
  import opened Errors

  /** The HTTP methods the client issues. */
  datatype HttpMethod = Head | Get | Put | Post | Patch | Delete

  /** A JSON document, as produced by the JSON parser. */
  datatype JsonValue =
    | JNull
    | JBool(b: bool)
    | JNumber(digits: string)
    | JString(s: string)
    | JArray(items: seq<JsonValue>)
    | JObject(members: seq<(string, JsonValue)>)

  /** A field of a multipart form: a text field, or a file with the contents read from it. */
  datatype Part =
    | TextField(name: string, text: string)
    | FileField(name: string, filename: string, contents: string)

  /** The body attached to a request. */
  datatype Body =
    | NoBody
    | JsonBody(fields: map<string, JsonValue>)
    | FormBody(fields: map<string, JsonValue>)
    | MultipartBody(parts: seq<Part>)

  /** An `Authorization` credential: basic (user and optional password) or bearer. */
  datatype Credential =
    | Basic(user: string, password: Option<string>)
    | Bearer(token: string)

  datatype Request = Request(
    verb: HttpMethod,
    url: string,
    headers: seq<(string, string)>,
    query: seq<(string, string)>,
    body: Body,
    cookies: seq<(string, string)>,
    credentials: seq<Credential>)

  /**
   * The credential added last. The client only appends credentials: a request
   * given both a basic credential and a token carries both. The model reads
   * the last one as the one a server honours.
   */
  function Authorization(r: Request): Option<Credential> {
    if r.credentials == [] then None else Some(r.credentials[|r.credentials| - 1])
  }

  /** A request to `url` with nothing added yet (`Client::request`). */
  function NewRequest(verb: HttpMethod, url: string): (r: Request)
    ensures r.verb == verb && r.url == url
    ensures r.headers == [] && r.query == [] && r.body == NoBody && r.cookies == [] && r.credentials == []
  {
    Request(verb, url, [], [], NoBody, [], [])
  }

  /**
   * The services outside the client: reading a whole file, parsing JSON text,
   * parsing an absolute URL into its normalised text, and the password typed at
   * the terminal prompt.
   */
  datatype Env = Env(
    readFile: string -> Result<string, IoErrorKind>,
    parseJson: string -> Result<JsonValue, JsonCategory>,
    parseUrl: string -> Result<string, UrlErrorKind>,
    readPassword: Result<string, IoErrorKind>)
}
