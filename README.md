# A model of a command-line HTTP client's request assembly

The client takes a URL and a list of parameter expressions from the command
line, such as `Accept:text/html`, `name=value`, `count:=3`, `page==2`,
`avatar@me.png`, `bio=@bio.txt` and `doc:=@doc.json`. From these it builds
one HTTP request. This project models two parts of that in Dafny and proves
properties of them.

- **The parameter-expression parser** (`src/app.rs`):
  - the tokenizer `gather_escape`. It cuts an argument into text runs and
    backslash escapes of `\`, `=`, `@` and `:`.
  - `parse_param`. It finds the first text run that holds a separator and
    chooses that run's leftmost separator, taking the longest one at that
    offset. It builds key and value around that separator's first occurrence
    and classifies the parameter by the separator.
  - the `App` flags: the merge of the configuration file, the log level, and
    validation.
- **The request-assembly rules** (`src/client.rs`):
  - URL parsing, including the `:port` and `:/path` shorthands for localhost
    and the default scheme;
  - the multipart check;
  - the session: the headers, cookies and credentials it adds to a request,
    and the headers and credentials it stores from it;
  - each parameter kind's contribution to headers, query, JSON or form data,
    or the multipart form;
  - basic and bearer credentials.

The request that would be sent is an abstract descriptor (`Requests.Request`):
the method, the URL, headers and query pairs in the order they were added, a
body, the cookies and the credentials. Sending it is not modelled.

Four services are functions in an environment (`Requests.Env`):
- reading a file;
- parsing JSON;
- parsing an absolute URL;
- reading a password at the terminal.

## Modules

| file | module | what it holds |
|---|---|---|
| results.dfy | Results | `Option`, `Result` |
| errors.dfy | Errors | the error enumeration of `src/errors.rs` |
| escapes.dfy | Escapes | the tokenizer, as a method and as its specification `Tokenize` |
| params.dfy | Params | separators, parameters, and `parse_param` as methods with their loops |
| requests.dfy | Requests | the request descriptor and the environment of services |
| cli.dfy | Cli | the `App` class with its flags, and the default method |
| assembly.dfy | Assembly | `handle_parameters`, as a loop method and as the function `Assemble` |
| auth.dfy | Auth | `parse_auth` |
| session.dfy | Sessions | the session: its stored headers, cookies and credentials, `add_to_request`, `update_with_parameters` and `update_auth` |
| client.dfy | Client | `handle_auth`, `parse`, `handel_session`, `perform` and `perform_method` |

## Model

| member | source | states |
|---|---|---|
| Escapes.GatherEscape | src/app.rs:359-395 | The single pass with `start`/`end` returns `Tokenize(src)`. Written back with each escape as backslash plus character, the tokens give `src` again. Every token is a non-empty text run or an escape of `\`, `=`, `@` or `:`, and no two text runs are adjacent. No text run holds a backslash pair that could be an escape. |
| Escapes.TokenizeRoundTrip | src/app.rs:359-395 | Flattening the tokens of any argument gives the argument back. |
| Escapes.TokenizeWellFormed | src/app.rs:359-395 | The tokenizer only yields valid tokens, and text runs are maximal. |
| Escapes.TokenizeResolved | src/app.rs:364-394 | A backslash pair becomes an escape exactly when its second character is escapable. Inside a text run, every backslash is followed by a character that cannot be escaped. Only a lone backslash at the very end of the argument may end a text run, and only the last one. |
| Escapes.PlainArgumentIsOneText | src/app.rs:364-376 | A non-empty argument with no escapable backslash pair is one text run. |
| Params.TryFrom | src/app.rs:312-327 | It yields the separator whose spelling is the string, and it yields one whenever some separator has that spelling. |
| Params.Classify | src/app.rs:459-477 | The separator decides the variant (`@` FormFile, `=` Data, `:` Header, `:=` RawJsonData, `==` Query, `=@` DataFile, `:=@` RawJsonDataFile), and key and value are kept. |
| Params.ClassifiersBySeparator | src/app.rs:267-281 | `is_form_file` holds exactly for parameters written with `@`. `is_data` fails exactly for those written with `:` or `==`. |
| Params.Find | src/app.rs:408 | `str::find` returns an offset where the pattern occurs, and no earlier offset has one. |
| Params.SplitOnce | src/app.rs:449-453 | The two-way split puts back the whole string around the separator. The part before it holds no occurrence of it. |
| Params.MatchesIffSeparator | src/app.rs:407-411 | The separator search records something for a text run exactly when the run holds one of the seven separators. |
| Params.SearchTokens | src/app.rs:402-422 | The search finds nothing exactly when no text run holds a separator. Otherwise it stops at the first run that holds one, and it returns that run's first occurrence of each separator present. |
| Params.SelectFirst | src/app.rs:423-424 | The chosen match comes first in the order by offset, then by longer separator. |
| Params.SelectedIsLeftmostLongest | src/app.rs:423-424 | The match chosen in that order is the leftmost separator, and the longest one at its offset. |
| Params.LeftmostLongestUnique | src/app.rs:423-424 | There is only one leftmost-longest separator, so the choice does not depend on tie-breaking. |
| Params.StitchKeyValue | src/app.rs:428-458 | The key is the tokens before the winning run, then that run up to the separator. The value is the rest of that run after the separator, then the later tokens. Escapes are written back with their backslash. |
| Params.SplitRoundTrip | src/app.rs:428-458 | Key, separator and value together spell the whole argument. |
| Params.ParseParam | src/app.rs:397-481 | It fails with `ParameterMissingSeparator(src)` exactly when no text run holds a separator. On success the parameter is the winning split: the first run with a separator, its leftmost-longest separator, and key and value around it. Key, separator spelling and value concatenate to `src`. |
| Cli.MethodOf | src/app.rs:211-222 | Each of the six subcommands HEAD, GET, PUT, PATCH, POST and DELETE maps to the method of the same name, and only that subcommand maps to it. |
| Cli.App.Validate | src/app.rs:127-132 | It fails with `MissingUrlAndCommand` exactly when there is neither a subcommand nor a URL. |
| Cli.App.ProcessConfigFile | src/app.rs:133-159 | Without a file nothing changes. With one, the five mergeable flags become `MergeConfig` of the old flags and the file, and every other field is unchanged. |
| Cli.MergeKeepsCommandLine | src/app.rs:137-157 | A flag set on the command line is never overridden by the file. |
| Cli.MergeFillsUnset | src/app.rs:137-157 | A flag left unset takes the file's value when the file has the key, and stays at its default otherwise. |
| Cli.MergeIdempotent | src/app.rs:137-157 | Merging the same file a second time changes nothing. |
| Cli.MergeAsWrittenOverridesSecure | src/app.rs:142-146 | As written, `--secure` is switched off by a file that has `form = false` and no `secure` key, and the file's `form = true` never turns form mode on. The corrected merge does neither. |
| Cli.App.LogLevel | src/app.rs:161-173 | There is no level exactly when quiet or when `verbose` is 0. Otherwise the level is the n-th of error, warn, info, debug and trace for n uses of `-v`, and trace from five on. |
| Cli.LogLevelMonotone | src/app.rs:161-173 | More uses of `-v` never give a less verbose level. |
| Cli.DefaultMethod | src/main.rs:41-46 | Without a subcommand the method is POST exactly when some parameter is data, and GET exactly when none is. |
| Sessions.AddToRequest | src/client.rs:95-97 | The stored headers, cookies and credentials (basic, then token) are appended after the request's own. For each header name, the value added last is the stored one when the session has one, and the request's otherwise. The credential added last is the stored token, else the stored basic credential, else the request's own. Method, URL, query and body do not change. |
| Sessions.MergeLookup | src/client.rs:100 | After storing a list of headers, a name in the list has its last value there, and every other name keeps the value stored before. |
| Sessions.StoredCredential | src/client.rs:95-97 | A stored `--auth` text is split at its first colon as `parse_auth` splits it. Without a colon, the whole text is the user and there is no password. |
| Sessions.StoredCredentialAgrees | src/client.rs:95-97 | With a colon, the stored credential is the one `parse_auth` gives, whatever the prompt would answer. |
| Sessions.UpdatedRecalls | src/client.rs:98-102 | After the update a header parameter's name has that parameter's value, the last one winning, and every other stored header keeps its value. A given `--auth` or `--token` replaces the stored one, one not given is kept, and the cookies stay. |
| Sessions.Session.UpdateWithParameters | src/client.rs:100 | Each header parameter is stored under its name, in parameter order, and nothing else in the session changes. |
| Sessions.Session.UpdateAuth | src/client.rs:101 | A given `--auth` or `--token` replaces the stored one, and one not given leaves it. Headers and cookies do not change. |
| Assembly.Route | src/client.rs:119-164 | One parameter's effect, kind by kind. A header or query parameter is added as written. Plain data is the JSON string of its value, or a text field in multipart mode. Raw JSON is the parsed value, and text that does not parse fails with that `SerdeJson` error. For the three file kinds, a file that cannot be read fails with that `IO` error. Otherwise a data file is the JSON string of the file's text, a raw JSON file is the parsed text or its `SerdeJson` error, and a form file is a file field with the contents. Only these kinds can fail. |
| Assembly.RawJsonThatDoesNotParse | src/client.rs:138-142 | Raw JSON that does not parse, such as `tags:=not-json`, makes the whole assembly fail with that `SerdeJson` error. |
| Assembly.HandleParameters | src/client.rs:106-181 | The loop over the parameters returns exactly `Assemble`. |
| Assembly.EffectsSucceed | src/client.rs:119-165 | Applying the parameters succeeds exactly when every one succeeds, with one effect per parameter, in order. |
| Assembly.EffectsFailFirst | src/client.rs:119-165 | A failure carries the error of the first parameter that fails. |
| Assembly.AssembleAppendsInOrder | src/client.rs:121-137 | Headers and query pairs are appended in parameter order. Method, URL, cookies and credentials are untouched. |
| Assembly.AssembleFailsAtFirstError | src/client.rs:138-164 | Assembly fails exactly when some parameter fails, and then with the first one's error. |
| Assembly.AssembleBody | src/client.rs:166-176 | In multipart mode the body is the form of text and file parts, in parameter order. Otherwise it is unchanged when no parameter is data. Else it is the form or JSON map of every written key, each holding the value of its last writer. |
| Assembly.AssembleAsWrittenDropsLaterParameters | src/client.rs:166-178 | Read as written, with the body block and `Ok(builder)` as the end of the loop body, the body is attached and the function returns after the first parameter. So with two query parameters only the first reaches the request. The corrected assembly keeps both. |
| Client.IsMultipart | src/client.rs:39 | Multipart mode holds exactly when some parameter is a form file. |
| Auth.TrimStartColons | src/client.rs:202 | The result is a suffix that does not start with a colon, and everything dropped is a colon. |
| Auth.ParseAuth | src/client.rs:199-212 | Without a colon, the user is the whole string and the password is the prompt's answer, or the prompt's I/O error. With a colon, the user is the text before the first colon. The password is absent when only colons follow. Otherwise it is the rest after the following colons. |
| Auth.ParseAuthRoundTrip | src/client.rs:199-207 | A colon-free user joined to a password by `:` parses back to that user and password, with an empty password read as none. |
| Client.HandleAuth | src/client.rs:68-83 | It fails exactly when `--auth` is given and does not parse. Otherwise it appends the basic credential, if any, then the bearer token, if any, and changes nothing else. |
| Client.HandleAuthWins | src/client.rs:68-83 | The basic credential of `--auth`, then the token, are appended after the request's own credentials. The one added last is the token when given, else the parsed `--auth`, else the request's own last one. |
| Client.SchemePrefix | src/client.rs:279-283 | The default scheme is https exactly with `--secure`, and http otherwise. |
| Client.ParseUrl | src/client.rs:270-286 | `:/path` is parsed as `http://localhost/path` and `:port...` as `http://localhost:port...`. Any other text is used as the parser returns it when it parses, and is otherwise parsed again behind the default scheme. |
| Client.LocalhostShorthand | src/client.rs:271-275 | `:/path` and `:port/path` mean localhost over http, whatever `--secure` says. |
| Client.AbsoluteUrlKept | src/client.rs:276-277 | A URL that parses is used as it is. |
| Client.FallbackScheme | src/client.rs:278-284 | A URL that does not parse is tried again behind https with `--secure`, and behind http without it. |
| Client.ParseUrlAsWrittenMisspellsScheme | src/client.rs:282 | As written, a bare host without `--secure` is handed to the URL parser behind `htpp://`, which is neither http nor https. The corrected parse uses `http://`. |
| Client.HandleSession | src/client.rs:87-105 | Without a session the request is unchanged. With one, the request becomes `AddToRequest` of what the session stored before the call. Unless read-only, the session then holds `Updated`: the header parameters stored under their names, and the auth and token replaced where given. A read-only session does not change. |
| Client.Perform | src/client.rs:28-66 | It returns `Outcome`, computed from what the session stored before the call: a URL error, then a form file without `--form`, then the session's contribution, the parameters and the credentials. The session changes exactly when the request got past those two checks and the session is not read-only, and it then becomes `Updated` of what it held. |
| Client.PerformMethod | src/client.rs:13-26 | A subcommand performs its own URL and parameters with the method it names. |
| Client.OutcomeErrorOrder | src/client.rs:36-45 | A URL that does not parse is reported first. Then a form file without `--form` is refused, whatever the files and JSON would have given. |
| Client.OutcomeShape | src/client.rs:46-57 | A request that comes out has the given method and the parsed URL. Its headers are the session's stored headers followed by the header parameters. Its query is the query parameters in order, its cookies are the session's, and every parameter succeeded. |
| Client.OutcomePrecedence | src/client.rs:46-57 | What the invocation gives is added after what the session stored. The value added last under a header name is the header parameter's when there is one, else the stored one. The credential added last is `--token`, then `--auth`, then the stored token and auth. |
| Client.OutcomeCredentials | src/client.rs:46-57 | The request's credentials are the session's stored basic credential and token, then the basic credential of `--auth` and the token of `--token`, each when present. The last of them is the token, else `--auth`, else the session's. |
| Client.SessionHeaderOverride | src/client.rs:95-102 | With `X-Session: old` stored and the parameter `X-Session:new`, the request's headers are the stored ones followed by `X-Session: new`. Both values are sent, and `new` is the one added last. A session that is not read-only then stores `new`. |
| Client.DefaultGetHasNoBody | src/main.rs:41-46 | When the method defaults to GET, the request carries no body. |

## Left out

- Sending the request, the response, timing, logging and syntax highlighting are not modelled. The model stops at the request that would be sent.
- The HTTP library, JSON parsing, file reading, URL parsing and the terminal password prompt are not modelled. They are functions in `Requests.Env`, and their results (including their error kinds) are taken as given.
- JSON read from a file is reported here as an `IO` error when the file cannot be opened and as `SerdeJson` when it cannot be parsed. Read errors that the JSON reader itself reports as `SerdeJson(Io)` are folded into the `readFile` result.
- Locating and reading the configuration file is not modelled. `Cli.App.ProcessConfigFile` takes the file's contents, or its absence, as a parameter.
- The session module is not part of this model. `Sessions` follows what its callers at src/client.rs:95-102 rely on: a session stores headers, cookies, an `--auth` text and a token, adds them to each request, and stores the request's header parameters and credentials. Its storage, file names and host key are left out. Cookies captured from a response are left out, because that happens when the response is handled.
- Sessions.AddToRequest: all stored cookies are sent, without domain or path matching. A stored `--auth` without a colon is sent as a user without password, with no prompt. These rules stand in for the session code, which is not part of this model.
- Requests.Authorization: the client only appends credentials and headers (src/client.rs:76, 80, 123), so a request with several credentials, or several values under one header name, sends all of them. Where this model says a value is the one that counts, it means the one added last.
- Sessions.Lookup: header names are compared exactly. HTTP compares them without regard to case, so `x-session` and `X-Session` are different names here.
- Sessions.AddToRequest: the stored values come first and earlier values are not removed. "The value of a name" in its contract is the value added last.
- Client.HandleAuthWins: with both `--auth` and `--token` both credentials are sent. "The credential" is the one added last.
- Client.OutcomePrecedence: the stored headers and credentials are still sent. The invocation's values are the ones added last, not the only ones.
- Client.SessionHeaderOverride: the request carries both `X-Session: old` and `X-Session: new`. `new` is the value added last.
- Client.OutcomeShape: its clauses on the stored headers and cookies, and `Client.OutcomePrecedence`'s clauses on stored credentials, depend on the `Sessions` stand-in, not on session code.
- Command-line parsing is not modelled. `Cli.App` is constructed from flag values already parsed.
- Text is modelled as sequences of characters. The source counts characters when tokenizing but slices byte offsets, so the two agree on ASCII input only.
- JSON numbers are kept as their digit strings.
- The messages of the error type's display implementation are not modelled.
- `Params.SelectFirst`: the sort followed by taking the head is modelled as picking the least element in the same order. `Params.LeftmostLongestUnique` shows that no two different matches tie in that order.
- `Params.StitchKeyValue`: escapes are written back into key and value as backslash plus character, as the code does, rather than unescaped.
- The source as written would not compile, because of misspelled names. The model reads each one as the name evidently meant:
  - `str`/`src`, `TOken`, `Equil`, `FromFile`, `Mrthod`/`meyhod`/`parametrers`, `buildr`/`bulder`, `mup`, `inter`, `pqrse`, `rpasword`, `maybe_pasword`;
  - `usl`, the URL field of a method subcommand (src/app.rs:241), read as `url`;
  - the pattern `Token::&Escape(c)` (src/app.rs:442), read as `Token::Escape(c)`;
  - `part` bound and `parts` used (src/app.rs:449-451);
  - `reqwest:UrlError` (src/client.rs:270), read as `reqwest::UrlError`;
  - the `key: ()` patterns;
  - `split(2, sep)`, read as `splitn`;
  - `Ok(builder)` as the tail expression of the loop body over the parameters (src/client.rs:166-177), where the loop needs `()`. The model reads it as returning after the first parameter (see Findings).
  - `filename:` fields, which the `Parameter` enumeration names `value`.
- Calls of `multipart.unwrap()` on a form file (src/client.rs:157-163) never meet `None`. Multipart mode is `any(is_form_file)` over the parameters (src/client.rs:39), so a form file always comes with multipart mode. `Client.IsMultipart` ensures `FormFilesNeedMultipart`, and `Assembly.Route` requires it.

## Findings

| source | as written | input that shows it | evidently intended | confidence | as-written member | corrected member |
|---|---|---|---|---|---|---|
| src/app.rs:142-146 | the file's `form` key is stored into `secure` | command line `--secure`, and a configuration file with `form = false` and no `secure` key: secure mode ends up off | the file's `form` key fills `form` | not executed | Cli.MergeAsWrittenOverridesSecure | Cli.App.ProcessConfigFile |
| src/client.rs:282 | the fallback scheme is spelled `htpp://` | `example.com` without `--secure`: the parser is asked for `htpp://example.com` | `http://` | not executed | Client.ParseUrlAsWrittenMisspellsScheme | Client.FallbackScheme |
| src/client.rs:166-177 | the body block and `Ok(builder)` close the loop body over the parameters, read as returning after the first one | `page==1 size==2`: only the first query pair is sent | attach the body and return after the loop | not executed | Assembly.AssembleAsWrittenDropsLaterParameters | Assembly.HandleParameters |
