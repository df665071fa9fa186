/** The request handlers of main.py (`/validate`, `/api_usage` and the proxy
    catch-all), the two append-only audit logs they write, the usage report
    read back from the valid log, and the upstream URL of a forward. */
module Handlers {
  import opened Wrappers
  import opened Text
  import opened ConfigLoader
  import opened Auth
  import opened HttpHeaders

  /** One CSV record, as `csv.reader` gives it back: its fields as text. */
  type Row = seq<string>

  /** The key recorded when the header has no `Bearer ` prefix. */
  const NoApiKey := "no_api_key"
  /** The default of `request_headers` and `request_body` (main.py:61, 75). */
  const NoneCell := "none"

  /** What `csv.writer` stores for the username: `None` is written as the
      empty field. */
  function UsernameCell(username: Option<string>): string
  {
    username.GetOr("")
  }

  /** A row of `api_usage.csv` (main.py:70). */
  function UsageRow(now: string, username: Option<string>, apiKey: string, endpoint: string,
                    headers: string, body: string): Row
  {
    [now, UsernameCell(username), apiKey, endpoint, headers, body]
  }

  /** A row of `invalid_api_usage.csv` (main.py:81). */
  function InvalidRow(now: string, apiKey: string, endpoint: string, headers: string, body: string): Row
  {
    [now, apiKey, endpoint, headers, body]
  }

  // ---------------------------------------------------------------------
  // The usage report (main.py:119-125)

  /** One entry of the `/api_usage` answer. It has no field for the key. */
  datatype UsageEntry = UsageEntry(timestamp: string, username: string, endpoint: string,
                                   requestHeader: string, requestBody: string)

  function EntryOf(row: Row): UsageEntry
    requires |row| >= 6
  {
    UsageEntry(row[0], row[1], row[3], row[4], row[5])
  }

  /** The list comprehension over the remaining rows; `None` stands for the
      `IndexError` a row with fewer than six fields raises. */
  function Entries(rows: seq<Row>): (r: Option<seq<UsageEntry>>)
    ensures r.Some? <==> forall i :: 0 <= i < |rows| ==> |rows[i]| >= 6
    ensures r.Some? ==> |r.value| == |rows|
    ensures r.Some? ==> forall i :: 0 <= i < |rows| ==>
              r.value[i] == UsageEntry(rows[i][0], rows[i][1], rows[i][3], rows[i][4], rows[i][5])
  {
    if rows == [] then Some([])
    else if |rows[0]| < 6 then None
    else
      match Entries(rows[1..])
      case None => None
      case Some(rest) => Some([EntryOf(rows[0])] + rest)
  }

  /** The report built from the valid log: the first row is skipped as a
      header, and every later row gives one entry, in file order. */
  function UsageReport(rows: seq<Row>): (r: Option<seq<UsageEntry>>)
    ensures r.Some? <==> forall i :: 1 <= i < |rows| ==> |rows[i]| >= 6
    ensures r.Some? ==> |r.value| == if rows == [] then 0 else |rows| - 1
    ensures r.Some? ==> forall i :: 0 <= i < |r.value| ==>
              r.value[i] == UsageEntry(rows[i + 1][0], rows[i + 1][1], rows[i + 1][3], rows[i + 1][4], rows[i + 1][5])
  {
    if rows == [] then Some([]) else Entries(rows[1..])
  }

  /** Whatever the first row holds, the report is the same: it is never
      shown, even when nothing but the gateway ever wrote to the log and the
      first row is a real request. */
  lemma ReportIgnoresFirstRow(first: Row, other: Row, rest: seq<Row>)
    ensures UsageReport([first] + rest) == UsageReport([other] + rest)
  {
    assert ([first] + rest)[1..] == rest == ([other] + rest)[1..];
  }

  /** The report has no key column: two logs that differ only in column 2
      give the same answer. The key can still reach the report through the
      headers column; see `ProxiedKeyReported`. */
  lemma ReportDropsKeyColumn(rows: seq<Row>, rows': seq<Row>)
    requires |rows| == |rows'|
    requires forall i :: 0 <= i < |rows| ==> |rows[i]| == |rows'[i]|
    requires forall i, j :: 0 <= i < |rows| && 0 <= j < |rows[i]| && j != 2 ==> rows[i][j] == rows'[i][j]
    ensures UsageReport(rows) == UsageReport(rows')
  {
    var r, r' := UsageReport(rows), UsageReport(rows');
    assert r.Some? <==> r'.Some?;
    if r.Some? {
      assert |r.value| == |r'.value|;
      forall i | 0 <= i < |r.value| ensures r.value[i] == r'.value[i] {
        assert rows[i + 1][0] == rows'[i + 1][0] && rows[i + 1][1] == rows'[i + 1][1];
        assert rows[i + 1][3] == rows'[i + 1][3] && rows[i + 1][4] == rows'[i + 1][4];
        assert rows[i + 1][5] == rows'[i + 1][5];
      }
      assert r.value == r'.value;
    }
  }

  /** A row appended after the first shows up as the last entry of the next
      report, and the earlier entries stay as they were. */
  lemma ReportAfterAppend(rows: seq<Row>, row: Row)
    requires rows != [] && |row| >= 6
    requires UsageReport(rows).Some?
    ensures UsageReport(rows + [row]) == Some(UsageReport(rows).value + [EntryOf(row)])
  {
    var before, after := UsageReport(rows).value, UsageReport(rows + [row]);
    assert after.Some? by {
      forall i | 1 <= i < |rows + [row]| ensures |(rows + [row])[i]| >= 6 {
        if i < |rows| { assert (rows + [row])[i] == rows[i]; }
      }
    }
    assert after.value == before + [EntryOf(row)] by {
      forall i | 0 <= i < |before| ensures after.value[i] == before[i] {
        assert (rows + [row])[i + 1] == rows[i + 1];
      }
      assert (rows + [row])[|rows|] == row;
    }
  }

  /** On a log that already has a first row, a usage row written by the
      gateway and read back by the report gives every field it was written
      with except the key. On an empty log the row would be the first row,
      which no report shows. */
  lemma UsageRowReadBack(now: string, username: Option<string>, apiKey: string, endpoint: string,
                         headers: string, body: string, rows: seq<Row>)
    requires rows != [] && UsageReport(rows).Some?
    ensures var r := UsageReport(rows + [UsageRow(now, username, apiKey, endpoint, headers, body)]);
            r.Some? && r.value[|r.value| - 1] == UsageEntry(now, UsernameCell(username), endpoint, headers, body)
  {
    ReportAfterAppend(rows, UsageRow(now, username, apiKey, endpoint, headers, body));
  }

  // ---------------------------------------------------------------------
  // The forward (main.py:155-163)

  /** `f"http://{SERVER_IP}:{SERVER_PORT}{request.url.path}"`. */
  function UpstreamUrl(ip: string, port: string, path: string): string
  {
    "http://" + ip + ":" + port + path
  }

  datatype UrlParts = UrlParts(ip: string, port: string, path: string)

  /** Reads an upstream URL back: the host runs to the first `:`, the port to
      the next `/`, and the path is the rest. */
  function ParseUpstreamUrl(url: string): Option<UrlParts>
  {
    if !StartsWith(url, "http://") then None
    else
      var rest := url[|"http://"|..];
      var colon := IndexOf(rest, ':');
      if colon == |rest| then None
      else
        var after := rest[colon + 1..];
        var slash := IndexOf(after, '/');
        Some(UrlParts(rest[..colon], after[..slash], after[slash..]))
  }

  /** The URL carries the configured host and port and the request path
      unchanged, as long as the host has no `:` and the port no `/`. */
  lemma UpstreamUrlRoundTrip(ip: string, port: string, path: string)
    requires ':' !in ip && '/' !in port && (path == [] || path[0] == '/')
    ensures ParseUpstreamUrl(UpstreamUrl(ip, port, path)) == Some(UrlParts(ip, port, path))
  {
    var url := UpstreamUrl(ip, port, path);
    assert StartsWith(url, "http://");
    var rest := url[|"http://"|..];
    assert rest == ip + ":" + port + path;
    assert rest == ip + [':'] + (port + path);
    IndexOfFirst(ip, ':', port + path);
    assert IndexOf(rest, ':') == |ip| && rest[..|ip|] == ip;
    var after := rest[|ip| + 1..];
    assert after == port + path;
    if path == [] {
      assert after == port;
      IndexOfAbsent(port, '/');
    } else {
      assert after == port + ['/'] + path[1..];
      IndexOfFirst(port, '/', path[1..]);
    }
    assert IndexOf(after, '/') == |port| && after[..|port|] == port && after[|port|..] == path;
  }

  /** An inbound request: method, `request.url.path`, the query string, the
      header lines and the body (as the text it is logged as). */
  datatype Request = Request(verb: string, path: string, query: string, headers: seq<Header>, body: string)

  /** `request.headers.get("Authorization", "")` before the default. */
  function Authorization(req: Request): Option<string>
  {
    Get(req.headers, "authorization")
  }

  /** What a log row stores for `dict(request.headers)` (main.py:141). */
  function HeadersCell(hs: seq<Header>): string
  {
    Render(AsDict(hs))
  }

  /** The request `httpx` sends upstream: the inbound headers go along as they
      are, `Authorization` included. */
  datatype Outbound = Outbound(verb: string, url: string, headers: seq<Header>, body: string)

  datatype UpstreamReply = UpstreamReply(status: int, headers: string, content: string)

  function OutboundFor(config: Config, req: Request): Outbound
  {
    Outbound(req.verb, UpstreamUrl(config.serverIp, config.serverPort, req.path), req.headers, req.body)
  }

  /** The query string is not part of `request.url.path`, so it never reaches
      the upstream server. `Request` carries the query only so that this
      can be stated. */
  lemma QueryNotForwarded(config: Config, req: Request, query: string)
    ensures OutboundFor(config, req) == OutboundFor(config, req.(query := query))
  {
  }

  /** The usage row `proxy` writes for an accepted request (main.py:152):
      the headers column holds the whole header dict. */
  function ProxyRow(now: string, apiKeys: seq<Binding>, req: Request): Row
    requires Authenticate(HeaderValue(Authorization(req)), apiKeys).Accepted?
  {
    var token := Authenticate(HeaderValue(Authorization(req)), apiKeys).token;
    UsageRow(now, UsernameFor(apiKeys, token), token, req.path, HeadersCell(req.headers), req.body)
  }

  /** The header dict logged for a proxied request includes its
      `Authorization` header, so on a log that already has a first row the
      next usage report, which any holder of a valid key may fetch, shows
      `Bearer <key>` in that entry's `request_header`. */
  lemma ProxiedKeyReported(rows: seq<Row>, now: string, apiKeys: seq<Binding>, req: Request)
    requires rows != [] && UsageReport(rows).Some?
    requires Authenticate(HeaderValue(Authorization(req)), apiKeys).Accepted?
    ensures var token := Authenticate(HeaderValue(Authorization(req)), apiKeys).token;
            var r := UsageReport(rows + [ProxyRow(now, apiKeys, req)]);
            r.Some? && Infix(BearerPrefix + token, r.value[|r.value| - 1].requestHeader)
  {
    var token := Authenticate(HeaderValue(Authorization(req)), apiKeys).token;
    UsageRowReadBack(now, UsernameFor(apiKeys, token), token, req.path, HeadersCell(req.headers), req.body, rows);
    assert Authorization(req).Some?;
    assert Authorization(req).value == BearerPrefix + token;
    ValueLogged(req.headers, "authorization");
  }

  // ---------------------------------------------------------------------
  // Replies

  datatype Reply =
    | Plain(status: int, proxyStatus: string, message: string)
    | UsageData(entries: seq<UsageEntry>)
    | Relayed(upstream: UpstreamReply)
    | ServerError(detail: string)

  const FormatRejected := Plain(400, "invalid_api_key_format", "Invalid API Key format")
  const KeyRejected := Plain(401, "invalid_api_key", "Invalid API Key")
  const KeyValidated := Plain(200, "valid_api_key", "API Key validation successful")
  /** The `HTTPException` of main.py:128. */
  const ReadFailed := ServerError("Failed to read usage data")
  /** The framework's answer when the forward raises. */
  const ForwardFailed := ServerError("Internal Server Error")

  /** The reply `send` hands back is returned as it is; a transport error
      becomes the framework's 500. */
  function Relay(answer: Option<UpstreamReply>): Reply
  {
    match answer
    case Some(upstream) => Relayed(upstream)
    case None => ForwardFailed
  }

  // ---------------------------------------------------------------------
  // The gateway: configuration and the two logs

  class Gateway {
    /** `VALID_API_KEYS, SERVER_IP, SERVER_PORT`, read once at start. */
    const config: Config
    /** `api_usage.csv`, as rows. */
    var usageLog: seq<Row>
    /** Whether `api_usage.csv` exists; appending creates it. */
    var usageLogExists: bool
    /** `invalid_api_usage.csv`, as rows. */
    var invalidLog: seq<Row>

    /** Rules out a usage log that has rows but no file on disk, a state no
        sequence of calls reaches. No proof depends on it. */
    ghost predicate Valid()
      reads this
    {
      usageLogExists || usageLog == []
    }

    /** Module start-up (main.py:46-47): the configuration comes from the
        `.env` file, `None` when it cannot be opened; the logs are whatever
        is on disk. */
    constructor (envFile: Option<seq<string>>, usageLog0: seq<Row>, usageLogExists0: bool, invalidLog0: seq<Row>)
      requires usageLogExists0 || usageLog0 == []
      ensures Valid()
      ensures envFile.None? ==> config == Defaults
      ensures envFile.Some? ==> config == Load(envFile.value)
      ensures usageLog == usageLog0 && usageLogExists == usageLogExists0 && invalidLog == invalidLog0
    {
      var apiKeys, serverIp, serverPort := LoadConfig(envFile);
      config := Config(apiKeys, serverIp, serverPort);
      usageLog, usageLogExists, invalidLog := usageLog0, usageLogExists0, invalidLog0;
    }

    function Decide(authorization: Option<string>): Decision
    {
      Authenticate(HeaderValue(authorization), config.apiKeys)
    }

    /** `log_api_usage`: appends one row, with the username found for the
        key, to the usage log and creates it if needed. */
    method LogApiUsage(now: string, apiKey: string, endpoint: string, headers: string, body: string)
      requires Valid()
      modifies this
      ensures Valid() && usageLogExists
      ensures usageLog == old(usageLog) + [UsageRow(now, UsernameFor(config.apiKeys, apiKey), apiKey, endpoint, headers, body)]
      ensures invalidLog == old(invalidLog)
    {
      var username := UsernameFor(config.apiKeys, apiKey);
      usageLog := usageLog + [UsageRow(now, username, apiKey, endpoint, headers, body)];
      usageLogExists := true;
    }

    /** `log_invalid_api_usage`: appends one row to the invalid log. */
    method LogInvalidApiUsage(now: string, apiKey: string, endpoint: string, headers: string, body: string)
      requires Valid()
      modifies this
      ensures Valid()
      ensures invalidLog == old(invalidLog) + [InvalidRow(now, apiKey, endpoint, headers, body)]
      ensures usageLog == old(usageLog) && usageLogExists == old(usageLogExists)
    {
      invalidLog := invalidLog + [InvalidRow(now, apiKey, endpoint, headers, body)];
    }

    /** `validate_api_key` (GET/POST `/validate`). */
    method Validate(now: string, authorization: Option<string>) returns (reply: Reply)
      requires Valid()
      modifies this
      ensures Valid()
      ensures Decide(authorization).BadFormat? ==>
                reply == FormatRejected
                && invalidLog == old(invalidLog) + [InvalidRow(now, NoApiKey, "/validate", NoneCell, NoneCell)]
                && usageLog == old(usageLog) && usageLogExists == old(usageLogExists)
      ensures Decide(authorization).Accepted? ==>
                var token := Decide(authorization).token;
                reply == KeyValidated
                && usageLog == old(usageLog) + [UsageRow(now, UsernameFor(config.apiKeys, token), token, "/validate", NoneCell, NoneCell)]
                && usageLogExists && invalidLog == old(invalidLog)
      ensures Decide(authorization).Rejected? ==>
                reply == KeyRejected
                && invalidLog == old(invalidLog) + [InvalidRow(now, Decide(authorization).token, "/validate", NoneCell, NoneCell)]
                && usageLog == old(usageLog) && usageLogExists == old(usageLogExists)
    {
      match Decide(authorization) {
        case BadFormat =>
          LogInvalidApiUsage(now, NoApiKey, "/validate", NoneCell, NoneCell);
          reply := FormatRejected;
        case Accepted(token) =>
          LogApiUsage(now, token, "/validate", NoneCell, NoneCell);
          reply := KeyValidated;
        case Rejected(token) =>
          LogInvalidApiUsage(now, token, "/validate", NoneCell, NoneCell);
          reply := KeyRejected;
      }
    }

    /** `get_api_usage` (GET `/api_usage`). A format error is recorded under
        `/validate`. An accepted caller gets the report of the log as it was
        before its own row, which is appended after the read; a missing log
        or a short row gives 500 and records nothing. */
    method ApiUsage(now: string, authorization: Option<string>) returns (reply: Reply)
      requires Valid()
      modifies this
      ensures Valid()
      ensures Decide(authorization).BadFormat? ==>
                reply == FormatRejected
                && invalidLog == old(invalidLog) + [InvalidRow(now, NoApiKey, "/validate", NoneCell, NoneCell)]
                && usageLog == old(usageLog) && usageLogExists == old(usageLogExists)
      ensures Decide(authorization).Accepted? && old(usageLogExists) && UsageReport(old(usageLog)).Some? ==>
                var token := Decide(authorization).token;
                reply == UsageData(UsageReport(old(usageLog)).value)
                && usageLog == old(usageLog) + [UsageRow(now, UsernameFor(config.apiKeys, token), token, "/api_usage", NoneCell, NoneCell)]
                && usageLogExists && invalidLog == old(invalidLog)
      ensures Decide(authorization).Accepted? && !(old(usageLogExists) && UsageReport(old(usageLog)).Some?) ==>
                reply == ReadFailed
                && usageLog == old(usageLog) && usageLogExists == old(usageLogExists) && invalidLog == old(invalidLog)
      ensures Decide(authorization).Rejected? ==>
                reply == KeyRejected
                && invalidLog == old(invalidLog) + [InvalidRow(now, Decide(authorization).token, "/api_usage", NoneCell, NoneCell)]
                && usageLog == old(usageLog) && usageLogExists == old(usageLogExists)
    {
      match Decide(authorization) {
        case BadFormat =>
          LogInvalidApiUsage(now, NoApiKey, "/validate", NoneCell, NoneCell);
          reply := FormatRejected;
        case Accepted(token) =>
          if !usageLogExists {
            reply := ReadFailed;
            return;
          }
          var report := UsageReport(usageLog);
          if report.None? {
            reply := ReadFailed;
            return;
          }
          LogApiUsage(now, token, "/api_usage", NoneCell, NoneCell);
          reply := UsageData(report.value);
        case Rejected(token) =>
          LogInvalidApiUsage(now, token, "/api_usage", NoneCell, NoneCell);
          reply := KeyRejected;
      }
    }

    /** `proxy` (any other path, GET/POST/PUT/DELETE). An accepted request is
        recorded with its headers and body and then sent upstream through
        `send`, whose answer goes back unchanged; a rejected key is recorded
        without headers and body. */
    method Proxy(now: string, req: Request, send: Outbound -> Option<UpstreamReply>) returns (reply: Reply)
      requires Valid()
      modifies this
      ensures Valid()
      ensures Decide(Authorization(req)).BadFormat? ==>
                reply == FormatRejected
                && invalidLog == old(invalidLog) + [InvalidRow(now, NoApiKey, req.path, HeadersCell(req.headers), req.body)]
                && usageLog == old(usageLog) && usageLogExists == old(usageLogExists)
      ensures Decide(Authorization(req)).Accepted? ==>
                reply == Relay(send(OutboundFor(config, req)))
                && usageLog == old(usageLog) + [ProxyRow(now, config.apiKeys, req)]
                && usageLogExists && invalidLog == old(invalidLog)
      ensures Decide(Authorization(req)).Rejected? ==>
                reply == KeyRejected
                && invalidLog == old(invalidLog) + [InvalidRow(now, Decide(Authorization(req)).token, req.path, NoneCell, NoneCell)]
                && usageLog == old(usageLog) && usageLogExists == old(usageLogExists)
    {
      match Decide(Authorization(req)) {
        case BadFormat =>
          LogInvalidApiUsage(now, NoApiKey, req.path, HeadersCell(req.headers), req.body);
          reply := FormatRejected;
        case Accepted(token) =>
          LogApiUsage(now, token, req.path, HeadersCell(req.headers), req.body);
          var answer := send(OutboundFor(config, req));
          reply := Relay(answer);
        case Rejected(token) =>
          LogInvalidApiUsage(now, token, req.path, NoneCell, NoneCell);
          reply := KeyRejected;
      }
    }
  }

  /** A caller validates its key and then asks for the report: on a log that
      already has a first row, the validation is the newest entry it sees, and
      the report request itself is not in it. On an empty log the validation
      becomes the first row, which no report shows. */
  method ValidateThenReport(g: Gateway, t1: string, t2: string, authorization: Option<string>) returns (reply: Reply)
    requires g.Valid() && g.usageLog != [] && UsageReport(g.usageLog).Some?
    requires g.Decide(authorization).Accepted?
    modifies g
    ensures reply.UsageData? && |reply.entries| == |old(g.usageLog)|
    ensures var user := UsernameFor(g.config.apiKeys, g.Decide(authorization).token);
            user.Some? && reply.entries[|reply.entries| - 1] == UsageEntry(t1, user.value, "/validate", NoneCell, NoneCell)
  {
    var token := g.Decide(authorization).token;
    ghost var row := UsageRow(t1, UsernameFor(g.config.apiKeys, token), token, "/validate", NoneCell, NoneCell);
    var _ := g.Validate(t1, authorization);
    ReportAfterAppend(old(g.usageLog), row);
    AcceptedHasUsername(HeaderValue(authorization), g.config.apiKeys);
    reply := g.ApiUsage(t2, authorization);
  }
}
