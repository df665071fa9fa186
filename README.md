# fastapi-proxy-auth gateway core, modelled in Dafny

This project models the logic of `main.py` in fastapi-proxy-auth. The program is an HTTP
gateway. It checks a Bearer key against a table read from a `.env` file and records every
request it authenticates in one of two CSV audit logs, except an `/api_usage` request whose
log cannot be read. It answers GET/POST `/validate`,
GET `/api_usage` and GET `/ping` itself. A GET, POST, PUT or DELETE on any other path goes
to the catch-all `proxy`, and so does a PUT or DELETE on those three paths or a POST on
`/api_usage` or `/ping`. `proxy` forwards an accepted request to the single upstream server
given by `SERVER_IP` and `SERVER_PORT`. Any other method gets 405 from the framework.

The model has six modules, one file each:

- `wrappers.dfy` (`Wrappers`): `Option`, which stands for Python's `None`.
- `text.dfy` (`Text`): the `str` operations the code relies on. These are `strip()`, using
  the full set of characters for which Python's `isspace()` is true, `startswith`, `find`,
  counting a character, and `split(sep)[0]`.
- `config.dfy` (`ConfigLoader`): `load_config`.
  - The key table is a Python dict. It is modelled as its items in insertion order
    (`seq<Binding>`). `Bind` is `d[name] = key`: a name already present keeps its position.
  - `LoadConfig` is the loop over the file's lines. It updates the three results in place
    and leaves the loop at the first line that does not unpack into `key, value`.
  - `LoadConfig` is proved equal to the fold `Load`. The lemmas state the properties of `Load`.
- `headers.dfy` (`HttpHeaders`): the request's header lines, `headers.get(name)`, the copy
  `dict(request.headers)` and the text `str()` gives for it, which is what a log row stores.
- `auth.dfy` (`Auth`): the three-way decision that every handler makes on the
  `Authorization` header, and the reverse lookup of a username from a key.
- `handlers.dfy` (`Handlers`):
  - the two log rows;
  - the usage report built from `api_usage.csv`;
  - the upstream URL;
  - class `Gateway`. Its fields are the configuration, read once, and the two logs as
    sequences of rows. Its methods are the two logging functions and the three handlers.
    Each handler states, for each branch, the reply, the row it appends (one row, or none
    on the 500 branch of `/api_usage`), and that the other log is unchanged.

Behaviours of `main.py` that the model keeps as written:

- The token is `header[7:]`, compared verbatim with the configured keys.
- When `/api_usage` cannot read its log, it answers 500 and writes no row to either log.
- The usage report skips the first row of `api_usage.csv` as a header, but nothing ever
  writes one, so the first request recorded never appears in a report
  (`Handlers.ReportIgnoresFirstRow`).
- `proxy` logs the whole header dict, `Authorization` included, in the `request_header`
  column, and `/api_usage` returns that column to any caller with a valid key. The key
  column is left out of the report, but every proxied caller's key is still exposed
  through the headers (`Handlers.ProxiedKeyReported`).

## Model

| member | source | states |
|---|---|---|
| `Text.StripSpec` | main.py:31 | the result is a middle slice of the line; only whitespace lies before and after it, and it neither starts nor ends with whitespace |
| `Text.StripBlank` | main.py:31-32 | the stripped line is empty exactly when the line is all whitespace |
| `ConfigLoader.ClassifySpec` | main.py:31-33 | a line is blank iff it is all whitespace; it unpacks iff its stripped text holds exactly one `=`, and then it is `key + "=" + value` with no `=` in either part |
| `ConfigLoader.UserNameSpec` | main.py:35 | `key.split('username_')[1]`: the text after the prefix up to the next `username_` (or the end), with no earlier occurrence inside it |
| `ConfigLoader.LookupAt` | main.py:35 | in a table whose names are distinct, `get` of an entry's name gives that entry's key |
| `Text.Strip` | main.py:31 | `line.strip()`; characterised by `Text.StripSpec` and `Text.StripBlank` |
| `ConfigLoader.Classify` | main.py:31-33 | the verdict on one line: blank, does not unpack, or `key, value`; characterised by `ConfigLoader.ClassifySpec` |
| `ConfigLoader.UserName` | main.py:35 | `key.split('username_')[1]`; characterised by `ConfigLoader.UserNameSpec` |
| `ConfigLoader.Apply` | main.py:34-39 | the table changes only for a `username_` key, `SERVER_IP` only for that key and `SERVER_PORT` only for that key, each taking the value |
| `ConfigLoader.Load` | main.py:23-43 | the configuration a file gives; `ConfigLoader.LoadConfig` is proved equal to it and the lemmas below characterise it |
| `ConfigLoader.Bind` | main.py:35 | dict assignment: the name maps to the new key, every other name keeps its lookup, and the name order changes only by appending a new name |
| `ConfigLoader.LoadConfig` | main.py:23-43 | the loop returns exactly `Load` of the file's lines, and the defaults `{}`, `""`, `""` when the file cannot be opened |
| `ConfigLoader.BlankLineSkipped` | main.py:31-32 | inserting a whitespace-only line anywhere does not change the result |
| `ConfigLoader.UnknownKeyIgnored` | main.py:34-39 | inserting an entry whose key is not `username_...`, `SERVER_IP` or `SERVER_PORT` does not change the result |
| `ConfigLoader.MalformedLineStops` | main.py:33-43 | with a line that does not unpack, the result is what the lines before it give; nothing after it counts and no error escapes |
| `ConfigLoader.ServerDefaults` | main.py:25-26 | `SERVER_IP` and `SERVER_PORT` are `""` unless some line sets them |
| `ConfigLoader.ServerIpLastWins` | main.py:36-37 | the value of the last `SERVER_IP` line read is the result, whatever follows |
| `ConfigLoader.ServerPortLastWins` | main.py:38-39 | the value of the last `SERVER_PORT` line read is the result, whatever follows |
| `ConfigLoader.UserBindingLastWins` | main.py:34-35 | a `username_<name>=<key>` line binds the name to the key unless a later line rebinds the same name |
| `ConfigLoader.LoadedNameAbsent` | main.py:34-39 | a name that no line binds is not in the loaded table; only `username_` lines add keys |
| `ConfigLoader.LoadedNamesDistinct` | main.py:24-35 | the loaded table has each name at most once |
| `Auth.HeaderValue` | main.py:88 | the `""` default of `headers.get`; `Auth.MissingHeaderIsBadFormat` states its effect |
| `Auth.Authenticate` | main.py:90-96 | no `Bearer ` prefix iff format error; otherwise the header is `Bearer ` + token, accepted iff the token is a configured key |
| `Auth.AcceptedExactly` | main.py:94-101 | accepted with token t iff the header is exactly `Bearer ` + t and t is configured; rejected iff it is `Bearer ` + t and t is not |
| `Auth.MissingHeaderIsBadFormat` | main.py:88-92 | a request without the header gets the format error |
| `Auth.UsernameFor` | main.py:64 | some name iff the token is a configured key |
| `Auth.UsernameForSpec` | main.py:64 | the name found is that of the first binding, in insertion order, whose key is the token |
| `Auth.AcceptedHasUsername` | main.py:64 | an accepted token always has a username, so the username field of an accepted row is never empty for want of one |
| `Auth.UsernameRoundTrip` | main.py:64 | in a loaded table, the name found for a token is bound to that token |
| `Handlers.UsernameCell` | main.py:64-70 | `csv.writer` writes `None` as an empty field; `Handlers.UsageRowReadBack` reads it back |
| `Handlers.UsageRow` | main.py:70 | the six-field usage row; `Handlers.UsageRowReadBack` states what the report makes of it |
| `Handlers.InvalidRow` | main.py:81 | the five-field row of `invalid_api_usage.csv`; `Handlers.Gateway.LogInvalidApiUsage` appends it |
| `HttpHeaders.AsDictSpec` | main.py:141 | `dict(request.headers)` answers every lookup as the headers do and holds each name once |
| `HttpHeaders.ValueLogged` | main.py:141-152 | the logged text of the header dict contains, verbatim, the value of every header a lookup finds |
| `Handlers.Authorization` | main.py:140 | `request.headers.get("Authorization")` on the request's header lines |
| `Handlers.HeadersCell` | main.py:141-152 | the log cell for `request_headers` is `str(dict(request.headers))`; `HttpHeaders.ValueLogged` characterises it |
| `Handlers.ProxyRow` | main.py:152 | the usage row of an accepted proxied request; `Handlers.ProxiedKeyReported` states what the report shows of it |
| `Handlers.UpstreamUrl` | main.py:158 | the f-string URL; characterised by `Handlers.UpstreamUrlRoundTrip` |
| `Handlers.OutboundFor` | main.py:155-161 | the forwarded request: same method, the upstream URL, the inbound headers and body; `Handlers.QueryNotForwarded` is about it |
| `Handlers.Relay` | main.py:163 | the reply `send` hands back is returned as it is; a transport error becomes a 500 |
| `Handlers.Entries` | main.py:123 | one entry per row, in order, taking columns 0, 1, 3, 4 and 5; fails iff some row has fewer than six fields |
| `Handlers.UsageReport` | main.py:119-123 | the report is the entries of every row after the first; it fails iff a row after the first is short |
| `Handlers.ReportIgnoresFirstRow` | main.py:121-122 | the first row never reaches the report, whatever it holds |
| `Handlers.ReportDropsKeyColumn` | main.py:123 | logs differing only in the key column give the same report; the key is not a field of an entry |
| `Handlers.ProxiedKeyReported` | main.py:141-152 | on a log that already has a first row, after an accepted proxied request, the next report's last entry has `Bearer <key>` inside its `request_header` |
| `Handlers.ReportAfterAppend` | main.py:67-70 | a full row appended to a log with a header row becomes the last entry of the next report, and the earlier entries are unchanged |
| `Handlers.UsageRowReadBack` | main.py:70 | on a log that already has a first row, a usage row read back gives its time, username, endpoint, headers and body as written |
| `Handlers.UpstreamUrlRoundTrip` | main.py:158 | the upstream URL splits back into the configured host, the port and the request path unchanged |
| `Handlers.QueryNotForwarded` | main.py:158 | the outbound request does not depend on the query string |
| `Handlers.Gateway.constructor` | main.py:46-47 | the configuration is `load_config` of the `.env` file, read once; the logs start as found on disk |
| `Handlers.Gateway.LogApiUsage` | main.py:61-72 | exactly one row `[time, username, key, endpoint, headers, body]` is appended to the usage log, and the invalid log is unchanged |
| `Handlers.Gateway.LogInvalidApiUsage` | main.py:75-83 | exactly one row `[time, key, endpoint, headers, body]` is appended to the invalid log, and the usage log is unchanged |
| `Handlers.Gateway.Validate` | main.py:86-101 | 400 with `no_api_key`, 200 with a usage row, or 401 with the token logged; one row in one log per call |
| `Handlers.Gateway.ApiUsage` | main.py:104-131 | a format error is logged under `/validate`; an accepted caller gets the report of the log before its own row, then one row is appended; a missing file or a short row gives 500 and no row |
| `Handlers.Gateway.Proxy` | main.py:137-166 | a format error logs the headers and body; a rejected key logs `none` for both; an accepted request is logged, then the upstream reply is returned unchanged |
| `Handlers.ValidateThenReport` | main.py:94-125 | on a log that already has a first row, a validation followed by a report request: the report ends with the validation's entry and leaves out the report request itself |

## Left out

- Web framework: the FastAPI routing, the request-logging middleware, `service.log` and
  the `/ping` handler (main.py:11-17, 50-58, 133-135) are not modelled. The three handlers
  are separate methods, and the caller picks one. A request reaches `/validate` only with
  GET or POST, and `/api_usage` or `/ping` only with GET. A PUT or DELETE on those paths,
  or a POST on `/api_usage` or `/ping`, falls through to `proxy` (main.py:138), which
  forwards it if the key is accepted. Any other method gets 405, with nothing logged or
  forwarded. The
  framework's own `/docs`, `/redoc` and `/openapi.json` routes are answered before any of
  these and are not modelled.
- Header names: the server hands header names over in lower case, and `headers.get`
  lower-cases the name it is given. The model takes header names as already lower-case.
  `Validate` and `ApiUsage` read no header other than `Authorization`, so they receive
  its value already looked up, as `Option<string>`. `Proxy` receives the header lines.
- Forwarding: the `httpx` call is the parameter `send`, a function from the outbound
  request to the upstream reply. `None` stands for a transport error, which the framework
  turns into a 500. Timeouts and streaming are not modelled. Because `send` is a function,
  the model does not show that the usage row is written before the network call.
- Upstream reply: `send` stands for httpx together with `dict(response.headers)` at
  main.py:163. Repeated upstream headers, such as several `Set-Cookie` lines, come back
  folded into one comma-joined value, and the content is the body as httpx decoded it.
  The model passes on whatever `send` returns and does not model either transformation.
- Clock: `datetime.now()` is the parameter `now`, an opaque string.
- CSV encoding: quoting and parsing by `csv.writer` and `csv.reader` are not modelled. A
  file is its sequence of rows, and a row is its fields as strings.
- Rendering: `str()` of the header dict is modelled as `{'name': 'value', ...}`. The
  quote `repr` picks for a value holding `'`, and its escaping of backslashes and
  non-printable characters, are not modelled. `str()` of the body bytes is not
  modelled: the body is an opaque string that is forwarded and logged as it is.
- `HttpHeaders.ValueLogged`: the real `str()` escapes some characters, so the value
  appears verbatim only when it holds no quote, backslash or non-printable character.
- Log write failures: a failed append is caught and logged (main.py:71-72, 82-83) and is
  not modelled. Every append succeeds.
- Config read errors: when the `.env` file cannot be opened, the model gives the defaults.
  An error while reading lines, such as a decoding error, is not modelled. The lines are
  given as they come from the file iterator.
- `Handlers.Gateway.ApiUsage`: the 500 for a missing `api_usage.csv` is modelled by the
  flag `usageLogExists`. Other errors from opening the file are not modelled.
- Concurrency: `log_lock` is not modelled. The model is sequential, so each append is
  atomic.
- `Handlers.UpstreamUrlRoundTrip`: the round trip holds only when the host has no `:`,
  the port has no `/` and the path is empty or starts with `/`. An IPv6 address or a host
  that already carries a port makes the URL ambiguous.
