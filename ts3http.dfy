/**
 * The HTTP variant of the client (ts3Http.go): the WebQuery status, the
 * package-level settings, and the request `get` builds. Running the request
 * and decoding its JSON answer are one oracle, `fetch`, that receives the
 * URL text, the query parameters and the API key and answers with a
 * transport error or the decoded status and the raw body.
 */
module Ts3Http {
  import opened Wrappers
  import opened Strconv

  /** status (ts3Http.go:23-26). */
  datatype Status = Status(code: int, message: string)

  /** KeyValue (ts3Http.go:32-35): one query parameter. */
  datatype KeyValue = KeyValue(key: string, value: string)

  /** What get hands to the network: the URL before its query, the parameters, and the API key header. */
  datatype Request = Request(url: string, query: map<string, seq<string>>, apiKey: string)

  /** What comes back: a failure to build or run the request, or the decoded status and the raw body. */
  datatype HttpReply = HttpError(reason: string) | HttpOk(status: Status, body: string)

  /** IsSuccess (ts3Http.go:28-30): the message is "ok", or the code is the client's own -1. */
  function IsSuccess(s: Status): (r: bool)
    ensures s.code == -1 ==> r
    ensures s.code != -1 ==> (r <==> s.message == "ok")
  {
    s.message == "ok" || s.code == -1
  }

  /** The values of the package variables api_, baseUrl_, virtualServer_ and scheme_ (ts3Http.go:11-16). */
  datatype Settings = Settings(apiKey: string, baseUrl: string, virtualServer: int, scheme: string)

  /** The URL get requests (ts3Http.go:56-61): the selected server's id comes first unless the command is global. */
  function RequestUrl(s: Settings, path: string, globalCmd: bool): (r: string)
    ensures var base := s.scheme + "://" + s.baseUrl + "/";
      |r| >= |base| + |path| && r[..|base|] == base && r[|r| - |path|..] == path
    ensures globalCmd <==> |r| == |s.scheme + "://" + s.baseUrl + "/"| + |path|
    ensures !globalCmd ==> var base := s.scheme + "://" + s.baseUrl + "/";
      r[|base|..|r| - |path|] == FormatInt(s.virtualServer) + "/"
  {
    var sid := if globalCmd then "" else FormatInt(s.virtualServer) + "/";
    s.scheme + "://" + s.baseUrl + "/" + sid + path
  }

  /** Between the base and the path of a server command sits the selected server's id, which reads back as that id. */
  lemma RequestUrlServer(s: Settings, path: string)
    requires IsInt64(s.virtualServer)
    ensures var base := s.scheme + "://" + s.baseUrl + "/";
      var r := RequestUrl(s, path, false);
      var seg := r[|base|..|r| - |path|];
      |seg| >= 2 && seg[|seg| - 1] == '/' && ParseInt(seg[..|seg| - 1]) == Ok(s.virtualServer)
  {
    var seg := FormatInt(s.virtualServer) + "/";
    assert seg[..|seg| - 1] == FormatInt(s.virtualServer);
    ParseFormat(s.virtualServer);
  }

  /** The values stored under `k`, in the order they were added; none when the key is absent. */
  function ValuesOf(m: map<string, seq<string>>, k: string): seq<string> {
    if k in m then m[k] else []
  }

  /** url.Values after Add is called on each pair in order (ts3Http.go:68-73). */
  function Params(kvs: seq<KeyValue>): (r: map<string, seq<string>>)
    ensures forall i | 0 <= i < |kvs| :: kvs[i].key in r
    ensures forall k | k in r :: r[k] != []
    decreases |kvs|
  {
    if |kvs| == 0 then map[]
    else
      var n := |kvs| - 1;
      var m := Params(kvs[..n]);
      m[kvs[n].key := ValuesOf(m, kvs[n].key) + [kvs[n].value]]
  }

  /** Only the first of the variadic slices becomes parameters. */
  function QueryOf(queries: seq<seq<KeyValue>>): (r: map<string, seq<string>>)
    ensures |queries| == 0 ==> r == map[]
    ensures |queries| > 0 ==> forall k :: ValuesOf(r, k) == ValuesFor(queries[0], k)
  {
    if |queries| > 0 then ParamsAll(queries[0]); Params(queries[0]) else map[]
  }

  /** The values the pairs with key `k` carry, in order: a reference for Params. */
  function ValuesFor(kvs: seq<KeyValue>, k: string): seq<string>
    decreases |kvs|
  {
    if |kvs| == 0 then []
    else
      var n := |kvs| - 1;
      ValuesFor(kvs[..n], k) + if kvs[n].key == k then [kvs[n].value] else []
  }

  /** The three results of get: the status (nil on failure), the body, and the error. */
  datatype GetResult = GetResult(status: Option<Status>, body: string, err: Option<string>)

  /** What get (ts3Http.go:55-92) returns for the request the settings make. */
  function GetOf(s: Settings, path: string, globalCmd: bool, queries: seq<seq<KeyValue>>, fetch: Request -> HttpReply): (r: GetResult)
    ensures r.status.Some? <==> r.err.None?
    ensures r.err.None? ==> fetch(Request(RequestUrl(s, path, globalCmd), QueryOf(queries), s.apiKey)).HttpOk?
  {
    match fetch(Request(RequestUrl(s, path, globalCmd), QueryOf(queries), s.apiKey))
    case HttpError(e) => GetResult(None, "", Some(e))
    case HttpOk(status, body) => GetResult(Some(status), body, None)
  }

  /** The package variables, updated in place by ConfigureHttp and SelectVirtualServer. */
  class HttpConfig {
    var apiKey: string
    var baseUrl: string
    var virtualServer: int
    var scheme: string

    function Current(): Settings
      reads this
    {
      Settings(apiKey, baseUrl, virtualServer, scheme)
    }

    /** The initial values: no key or URL, virtual server 1, plain http. */
    constructor()
      ensures Current() == Settings("", "", 1, "http")
    {
      apiKey := "";
      baseUrl := "";
      virtualServer := 1;
      scheme := "http";
    }

    /** ConfigureHttp (ts3Http.go:38-47): the selected virtual server is left alone. */
    method ConfigureHttp(key: string, url: string, useHttps: bool)
      modifies this
      ensures Current() == Settings(key, url, old(virtualServer), if useHttps then "https" else "http")
    {
      apiKey := key;
      baseUrl := url;
      if useHttps {
        scheme := "https";
      } else {
        scheme := "http";
      }
    }

    /** SelectVirtualServer (ts3Http.go:50-52). */
    method SelectVirtualServer(sid: int)
      modifies this
      ensures Current() == old(Current()).(virtualServer := sid)
    {
      virtualServer := sid;
    }

    /** get: the parameters are added one by one, then the request goes to `fetch`. */
    method Get(path: string, globalCmd: bool, queries: seq<seq<KeyValue>>, fetch: Request -> HttpReply) returns (r: GetResult)
      ensures r == GetOf(Current(), path, globalCmd, queries, fetch)
    {
      var sid := "";
      if !globalCmd {
        sid := FormatInt(virtualServer) + "/";
      }
      var url := scheme + "://" + baseUrl + "/" + sid + path;
      var params := map[];
      if |queries| > 0 {
        params := AddAll(queries[0]);
      }
      match fetch(Request(url, params, apiKey))
      case HttpError(e) =>
        r := GetResult(None, "", Some(e));
      case HttpOk(status, body) =>
        r := GetResult(Some(status), body, None);
    }
  }

  /** The loop of get (ts3Http.go:70-72): url.Values.Add for each pair. */
  method AddAll(kvs: seq<KeyValue>) returns (params: map<string, seq<string>>)
    ensures params == Params(kvs)
  {
    params := map[];
    var i := 0;
    while i < |kvs|
      invariant 0 <= i <= |kvs|
      invariant params == Params(kvs[..i])
    {
      var kv := kvs[i];
      params := params[kv.key := ValuesOf(params, kv.key) + [kv.value]];
      assert kvs[..i + 1][..i] == kvs[..i];
      i := i + 1;
    }
    assert kvs[..i] == kvs;
  }

  // ---------------------------------------------------------------- lemmas

  /** Every key of the parameters carries exactly the values its pairs carry, in order. */
  lemma {:induction false} ParamsValues(kvs: seq<KeyValue>, k: string)
    ensures ValuesOf(Params(kvs), k) == ValuesFor(kvs, k)
    ensures k in Params(kvs) <==> ValuesFor(kvs, k) != []
    decreases |kvs|
  {
    if |kvs| > 0 {
      ParamsValues(kvs[..|kvs| - 1], k);
    }
  }

  lemma ParamsAll(kvs: seq<KeyValue>)
    ensures forall k :: ValuesOf(Params(kvs), k) == ValuesFor(kvs, k)
  {
    forall k {
      ParamsValues(kvs, k);
    }
  }

  /** Pairs with distinct keys give one value per key. */
  lemma ThreeParams(a: KeyValue, b: KeyValue, c: KeyValue)
    requires a.key != b.key && b.key != c.key && a.key != c.key
    ensures Params([a, b, c]) == map[a.key := [a.value], b.key := [b.value], c.key := [c.value]]
  {
    assert [a, b, c][..2] == [a, b];
    TwoParams(a, b);
    var empty: seq<string> := [];
    assert ValuesOf(Params([a, b]), c.key) == [];
    assert empty + [c.value] == [c.value];
  }

  lemma TwoParams(a: KeyValue, b: KeyValue)
    requires a.key != b.key
    ensures Params([a, b]) == map[a.key := [a.value], b.key := [b.value]]
  {
    assert [a, b][..1] == [a];
    assert [a][..0] == [];
    var empty: seq<string> := [];
    assert empty + [a.value] == [a.value];
    assert Params([a]) == map[a.key := [a.value]];
    assert ValuesOf(Params([a]), b.key) == [];
    assert empty + [b.value] == [b.value];
  }
}
