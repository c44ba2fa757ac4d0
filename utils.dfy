/**
 * The response parsers of utils.go: the status line (ParseQueryResponse), a
 * virtual-server record (ParseVirtualServer) and the field accessor GetVal.
 * Go's index-out-of-range panics are excluded by preconditions that follow
 * the order in which the source touches the fields.
 */
module Utils {
  import opened Wrappers
  import opened Strs
  import opened Strconv
  import opened Codec

  /** GetVal (utils.go:139-141): the text between the first and the second `=` of a token. */
  function GetVal(s: string): (r: string)
    requires '=' in s
    ensures var k := IndexOf(s, '='); var rest := s[k + 1..]; r == rest[..IndexOf(rest, '=')]
    ensures '=' !in r
  {
    SplitCharFirst(s, '=');
    var k := IndexOf(s, '=');
    SplitCharFirst(s[k + 1..], '=');
    Split(s, "=")[1]
  }

  /** A `key=value` token whose key and value hold no `=`. */
  lemma GetValOfToken(key: string, value: string)
    requires '=' !in key && '=' !in value
    ensures '=' in key + "=" + value
    ensures GetVal(key + "=" + value) == value
  {
    var s := key + "=" + value;
    assert s[|key|] == '=';
    assert IndexOf(s, '=') == |key| by {
      assert s[..|key|] == key;
      IndexOfAbsent(s, '=', |key|);
    }
    assert s[|key| + 1..] == value;
    IndexOfNone(value, '=');
  }

  lemma {:induction false} IndexOfAbsent(s: string, c: char, k: nat)
    requires k < |s| && s[k] == c && c !in s[..k]
    ensures IndexOf(s, c) == k
    decreases k
  {
    if k > 0 {
      assert s[..k][0] == s[0];
      assert s[1..][..k - 1] == s[1..k];
      assert forall j | 0 <= j < k - 1 :: s[1..k][j] == s[..k][j + 1];
      IndexOfAbsent(s[1..], c, k - 1);
    }
  }

  lemma {:induction false} IndexOfNone(s: string, c: char)
    requires c !in s
    ensures IndexOf(s, c) == |s|
    decreases |s|
  {
    if |s| > 0 {
      assert s[0] in s;
      assert forall j | 0 <= j < |s| - 1 :: s[1..][j] in s;
      IndexOfNone(s[1..], c);
    }
  }

  /** The token at index `i` exists and holds an `=`, so GetVal on it does not panic. */
  predicate HasVal(parts: seq<string>, i: nat) { i < |parts| && '=' in parts[i] }

  function IntVal(parts: seq<string>, i: nat): Result<int, NumError>
    requires HasVal(parts, i)
  {
    ParseInt(GetVal(parts[i]))
  }

  /** The whitespace-separated tokens of a trimmed line. */
  function Tokens(s: string): (r: seq<string>)
    ensures |r| >= 1
  {
    Split(TrimSpace(s), " ")
  }

  /** A leading white-space character does not change the tokens of a line. */
  lemma LeadingSpaceTokens(c: char, s: string)
    requires IsSpace(c)
    ensures Tokens([c] + s) == Tokens(s)
  {
    assert ([c] + s)[1..] == s;
  }

  // ------------------------------------------------------------ status line

  /** QueryResponse (utils.go:51-55). */
  datatype QueryResponse = QueryResponse(id: int, msg: string, success: bool)

  /** ParseQueryResponse does not panic: there are three tokens and the second and third hold an `=`. */
  predicate StatusSafe(s: string) {
    var parts := Tokens(s);
    |parts| >= 3 && '=' in parts[1] && '=' in parts[2]
  }

  /**
   * ParseQueryResponse (utils.go:58-74): reads tokens 1 and 2 of the trimmed
   * line; `id` falls back to -1 when it is not an int64; `success` compares
   * the raw, still-escaped message with "ok"; `msg` is the decoded message.
   */
  function ParseQueryResponse(s: string): (r: QueryResponse)
    requires StatusSafe(s)
    ensures r.id == -1 || IsInt64(r.id)
    ensures r.success ==> r.msg == "ok"
  {
    var parts := Tokens(s);
    var id := match ParseInt(GetVal(parts[1])) case Ok(v) => v case Err(_) => -1;
    var message := GetVal(parts[2]);
    assert message == "ok" ==> Decode(message) == "ok" by {
      if message == "ok" { DecodePlain(message); }
    }
    QueryResponse(id, Decode(message), message == "ok")
  }

  /** The status line a server sends: `error id=<id> msg=<escaped message>`. */
  function StatusLine(idText: string, msg: string): string {
    "error id=" + idText + " msg=" + Encode(msg)
  }

  /** A message the status line carries intact: no `=`, and no white space Encode leaves raw. */
  predicate Plain(msg: string) {
    '=' !in msg && forall i | 0 <= i < |msg| :: IsSpace(msg[i]) ==> IsReserved(msg[i])
  }

  /** An escaped plain message holds neither a space nor an `=`. */
  lemma EncodedPlain(msg: string)
    requires Plain(msg)
    ensures ' ' !in Encode(msg) && '=' !in Encode(msg)
    ensures forall i | 0 <= i < |Encode(msg)| :: !IsSpace(Encode(msg)[i])
  {
    var t := Encode(msg);
    EncodeEscaped(msg);
    EscapedHasNoRawReserved(t);
    EncodeChars(msg);
    forall i | 0 <= i < |t| ensures !IsSpace(t[i]) && t[i] != '=' {
      if t[i] in msg {
        var j :| 0 <= j < |msg| && msg[j] == t[i];
      }
    }
  }

  /** Tokens without spaces, joined by single spaces, come back out of Tokens unchanged. */
  lemma TokensOfJoin(parts: seq<string>)
    requires |parts| >= 1
    requires forall k | 0 <= k < |parts| :: ' ' !in parts[k]
    requires |parts[0]| > 0 && !IsSpace(parts[0][0])
    requires |parts[|parts| - 1]| > 0 && !IsSpace(parts[|parts| - 1][|parts[|parts| - 1]| - 1])
    ensures Tokens(Join(parts, " ")) == parts
  {
    var line := Join(parts, " ");
    JoinFirst(parts, " ");
    JoinLast(parts, " ");
    TrimSpaceNoop(line);
    SplitJoinChar(parts, ' ');
  }

  /**
   * Round trip of the status line: whatever the id text, the message comes
   * back decoded, success holds exactly for "ok", and the id is the parsed
   * id text or -1 when that text is not an int64.
   */
  lemma ParseStatusLine(idText: string, msg: string)
    requires ' ' !in idText && '=' !in idText && Plain(msg)
    ensures StatusSafe(StatusLine(idText, msg))
    ensures ParseQueryResponse(StatusLine(idText, msg))
         == QueryResponse(match ParseInt(idText) case Ok(v) => v case Err(_) => -1, msg, msg == "ok")
  {
    var enc := Encode(msg);
    var line := StatusLine(idText, msg);
    EncodedPlain(msg);
    StatusLineShape(idText, enc);
    StatusLineTokens(idText, enc);
    StatusKeys();
    ParseStatusTokens(line, "id", idText, "msg", enc);
    DecodeEncode(msg);
    EncodedOk(msg);
  }

  /** The words of a status line whose id and message hold no space. */
  lemma StatusLineTokens(idText: string, tail: string)
    requires ' ' !in idText && ' ' !in tail
    requires |tail| == 0 || !IsSpace(tail[|tail| - 1])
    ensures Tokens("error" + " " + ("id" + "=" + idText) + " " + ("msg" + "=" + tail))
         == ["error", "id" + "=" + idText, "msg" + "=" + tail]
  {
    var parts := ["error", "id" + "=" + idText, "msg" + "=" + tail];
    JoinThree(parts[0], parts[1], parts[2], " ");
    StatusKeys();
    NoCharInToken("id", idText, ' ');
    NoCharInToken("msg", tail, ' ');
    assert parts[2][|parts[2]| - 1] == if |tail| > 0 then tail[|tail| - 1] else '=';
    forall k | 0 <= k < |parts| ensures ' ' !in parts[k] {
      if k == 0 { assert parts[k] == "error"; }
      else if k == 1 { assert parts[k] == "id" + "=" + idText; }
      else { assert parts[k] == "msg" + "=" + tail; }
    }
    TokensOfJoin(parts);
  }

  /** The status line laid out as its three words. */
  lemma StatusLineShape(idText: string, enc: string)
    ensures "error id=" + idText + " msg=" + enc == "error" + " " + ("id" + "=" + idText) + " " + ("msg" + "=" + enc)
  {
    assert "error id=" == "error" + " " + "id" + "=";
    assert " msg=" == " " + "msg" + "=";
  }

  /** The escaped message reads "ok" exactly when the message is "ok". */
  lemma EncodedOk(msg: string)
    ensures Encode(msg) == "ok" <==> msg == "ok"
  {
    if msg == "ok" {
      assert !IsReserved(msg[0]) && !IsReserved(msg[1]);
      EncodeFixpoint(msg);
    }
    if Encode(msg) == "ok" {
      DecodeEncode(msg);
      DecodePlain("ok");
    }
  }

  /**
   * Any line of at least three tokens whose tokens 1 and 2 are `<k1>=<x>` and `<k2>=<y>`, whatever the keys
   * and whatever follows, parses to x's value (or -1), y decoded, and y == "ok": only the values count.
   */
  lemma ParseStatusTokens(line: string, k1: string, x: string, k2: string, y: string)
    requires '=' !in k1 && '=' !in k2 && '=' !in x && '=' !in y
    requires |Tokens(line)| >= 3 && Tokens(line)[1] == k1 + "=" + x && Tokens(line)[2] == k2 + "=" + y
    ensures StatusSafe(line)
    ensures ParseQueryResponse(line) == QueryResponse(match ParseInt(x) case Ok(v) => v case Err(_) => -1, Decode(y), y == "ok")
  {
    GetValOfToken(k1, x);
    GetValOfToken(k2, y);
  }

  lemma StatusKeys()
    ensures '=' !in "id" && '=' !in "msg" && ' ' !in "id" && ' ' !in "msg"
    ensures "error"[0] == 'e' && ' ' !in "error"
  {
  }

  /** A `key=value` token holds a character neither the key, `=` nor the value holds. */
  lemma NoCharInToken(key: string, value: string, c: char)
    requires c !in key && c != '=' && c !in value
    ensures c !in key + "=" + value
  {
    var t := key + "=" + value;
    forall j | 0 <= j < |t| ensures t[j] != c {
      if j < |key| { assert t[j] == key[j]; }
      else if j > |key| { assert t[j] == value[j - |key| - 1]; }
    }
  }

  /** The status line of a reply with an int64 id parses back to that id. */
  lemma ParseStatusLineInt(id: int, msg: string)
    requires IsInt64(id) && Plain(msg)
    ensures StatusSafe(StatusLine(FormatInt(id), msg))
    ensures ParseQueryResponse(StatusLine(FormatInt(id), msg)) == QueryResponse(id, msg, msg == "ok")
  {
    FormatIntPlain(id);
    ParseFormat(id);
    ParseStatusLine(FormatInt(id), msg);
  }

  // -------------------------------------------------------- virtual server

  /** VirtualServer (server.go:86-96). */
  datatype VirtualServer = VirtualServer(
    id: int, port: int, status: string,
    clientsOnline: int, queryClientsOnline: int, maxClients: int, uptime: int,
    name: string, autostart: bool)

  const ZeroServer := VirtualServer(0, 0, "", 0, 0, 0, 0, "", false)

  /** ParseVirtualServer does not panic: each token it reaches exists and holds an `=`. */
  predicate ServerRecordSafe(s: string) {
    var p := Tokens(s);
    HasVal(p, 0) && (IntVal(p, 0).Ok? ==>
    HasVal(p, 1) && (IntVal(p, 1).Ok? ==>
    HasVal(p, 2) &&
      if GetVal(p[2]) == "offline" then HasVal(p, 3) && HasVal(p, 4)
      else OnlineSafe(p)))
  }

  /** The tokens an online record is read from, up to the first that fails to parse. */
  predicate OnlineSafe(p: seq<string>) {
    HasVal(p, 3) && (IntVal(p, 3).Ok? ==>
    HasVal(p, 4) && (IntVal(p, 4).Ok? ==>
    HasVal(p, 5) && (IntVal(p, 5).Ok? ==>
    HasVal(p, 6) && (IntVal(p, 6).Ok? ==>
    HasVal(p, 7)))))
  }

  /**
   * ParseVirtualServer (utils.go:77-137). An offline record carries its
   * name in token 3 and its autostart flag ("1") in token 4; an online one
   * carries four counters in tokens 3-6, its name in token 7, and its
   * autostart flag is read as token 4 equal to "8". The name is not decoded.
   * Any integer that fails to parse yields the error (the source returns a
   * zero VirtualServer beside it).
   */
  function ParseVirtualServer(s: string): (r: Result<VirtualServer, NumError>)
    requires ServerRecordSafe(s)
    ensures r.Ok? ==> IsInt64(r.value.id) && IsInt64(r.value.port)
    ensures r.Ok? && r.value.status == "offline" ==>
      r.value.clientsOnline == 0 && r.value.queryClientsOnline == 0 && r.value.maxClients == 0 && r.value.uptime == 0
  {
    var p := Tokens(s);
    match IntVal(p, 0)
    case Err(e) => Err(e)
    case Ok(id) =>
      match IntVal(p, 1)
      case Err(e) => Err(e)
      case Ok(port) =>
        var status := GetVal(p[2]);
        if status == "offline" then
          Ok(VirtualServer(id, port, status, 0, 0, 0, 0, GetVal(p[3]), GetVal(p[4]) == "1"))
        else ParseOnline(p, id, port, status)
  }

  /** The rest of an online record: four counters, then the name; autostart is "the fifth token reads 8". */
  function ParseOnline(p: seq<string>, id: int, port: int, status: string): (r: Result<VirtualServer, NumError>)
    requires OnlineSafe(p)
    ensures r.Ok? ==> r.value.id == id && r.value.port == port && r.value.status == status
  {
    match IntVal(p, 3)
    case Err(e) => Err(e)
    case Ok(clients) =>
      match IntVal(p, 4)
      case Err(e) => Err(e)
      case Ok(queryClients) =>
        match IntVal(p, 5)
        case Err(e) => Err(e)
        case Ok(maxClients) =>
          match IntVal(p, 6)
          case Err(e) => Err(e)
          case Ok(uptime) =>
            Ok(VirtualServer(id, port, status, clients, queryClients, maxClients, uptime,
                             GetVal(p[7]), GetVal(p[4]) == "8"))
  }

  // ------------------------------------------------- records built by a server

  /** Text that survives as one token: no white space and no `=`. */
  predicate Bare(v: string) {
    forall i | 0 <= i < |v| :: !IsSpace(v[i]) && v[i] != '='
  }

  function Token(key: string, value: string): string { key + "=" + value }

  /** A record as the server lays it out: `key=value` tokens separated by single spaces. */
  function Record(fields: seq<(string, string)>): string {
    Join(seq(|fields|, i requires 0 <= i < |fields| => Token(fields[i].0, fields[i].1)), " ")
  }

  predicate WellFormedFields(fields: seq<(string, string)>) {
    |fields| >= 1 && forall i | 0 <= i < |fields| :: |fields[i].0| > 0 && Bare(fields[i].0) && Bare(fields[i].1)
  }

  /** One token of a record: no space in it, and GetVal gives its value. */
  lemma TokenFacts(key: string, value: string)
    requires Bare(key) && Bare(value)
    ensures ' ' !in Token(key, value) && '=' in Token(key, value)
    ensures GetVal(Token(key, value)) == value
  {
    assert ' ' !in key by { forall j | 0 <= j < |key| ensures key[j] != ' ' { assert !IsSpace(key[j]); } }
    assert ' ' !in value by { forall j | 0 <= j < |value| ensures value[j] != ' ' { assert !IsSpace(value[j]); } }
    assert '=' !in key by { forall j | 0 <= j < |key| ensures key[j] != '=' { } }
    assert '=' !in value by { forall j | 0 <= j < |value| ensures value[j] != '=' { } }
    NoCharInToken(key, value, ' ');
    GetValOfToken(key, value);
  }

  function RecordTokenSeq(fields: seq<(string, string)>): (r: seq<string>)
    ensures |r| == |fields|
    ensures forall i | 0 <= i < |fields| :: r[i] == Token(fields[i].0, fields[i].1)
  {
    seq(|fields|, i requires 0 <= i < |fields| => Token(fields[i].0, fields[i].1))
  }

  /** The tokens of a record are its `key=value` pairs, and GetVal on each gives its value back. */
  lemma RecordTokens(fields: seq<(string, string)>)
    requires WellFormedFields(fields)
    ensures Tokens(Record(fields)) == RecordTokenSeq(fields)
    ensures forall i | 0 <= i < |fields| :: '=' in RecordTokenSeq(fields)[i] && GetVal(RecordTokenSeq(fields)[i]) == fields[i].1
  {
    var toks := RecordTokenSeq(fields);
    assert Record(fields) == Join(toks, " ");
    forall i | 0 <= i < |fields| ensures ' ' !in toks[i] && '=' in toks[i] && GetVal(toks[i]) == fields[i].1 {
      TokenFacts(fields[i].0, fields[i].1);
    }
    var n := |fields| - 1;
    TokenEnds(fields[0].0, fields[0].1);
    TokenEnds(fields[n].0, fields[n].1);
    TokensOfJoin(toks);
  }

  /** A record's single-space-separated words are its tokens, each giving its value back. */
  lemma RecordWords(fields: seq<(string, string)>)
    requires WellFormedFields(fields)
    ensures Split(Record(fields), " ") == RecordTokenSeq(fields)
    ensures forall i | 0 <= i < |fields| :: '=' in RecordTokenSeq(fields)[i] && GetVal(RecordTokenSeq(fields)[i]) == fields[i].1
  {
    var toks := RecordTokenSeq(fields);
    assert Record(fields) == Join(toks, " ");
    forall i | 0 <= i < |fields| ensures ' ' !in toks[i] && '=' in toks[i] && GetVal(toks[i]) == fields[i].1 {
      TokenFacts(fields[i].0, fields[i].1);
    }
    SplitJoinChar(toks, ' ');
  }

  /** A record holds no line break. */
  lemma RecordOneLine(fields: seq<(string, string)>)
    requires WellFormedFields(fields)
    ensures '\n' !in Record(fields)
  {
    var toks := RecordTokenSeq(fields);
    assert Record(fields) == Join(toks, " ");
    forall i | 0 <= i < |fields| ensures '\n' !in toks[i] {
      var k, v := fields[i].0, fields[i].1;
      assert '\n' !in k by { forall j | 0 <= j < |k| ensures k[j] != '\n' { assert !IsSpace(k[j]); } }
      assert '\n' !in v by { forall j | 0 <= j < |v| ensures v[j] != '\n' { assert !IsSpace(v[j]); } }
      NoCharInToken(k, v, '\n');
    }
    JoinFree(toks, " ", '\n');
  }

  lemma TokenEnds(key: string, value: string)
    requires |key| > 0 && Bare(key) && Bare(value)
    ensures |Token(key, value)| > 0
    ensures !IsSpace(Token(key, value)[0]) && !IsSpace(Token(key, value)[|Token(key, value)| - 1])
  {
    var t := Token(key, value);
    assert t[0] == key[0];
    assert t[|t| - 1] == if |value| > 0 then value[|value| - 1] else '=';
  }

  /** An online server's fields, in the order serverlist lists them. */
  function OnlineFields(id: int, port: int, status: string, clients: int, queryClients: int,
                        maxClients: int, uptime: int, name: string): seq<(string, string)>
  {
    [("virtualserver_id", FormatInt(id)), ("virtualserver_port", FormatInt(port)),
     ("virtualserver_status", status), ("virtualserver_clientsonline", FormatInt(clients)),
     ("virtualserver_queryclientsonline", FormatInt(queryClients)),
     ("virtualserver_maxclients", FormatInt(maxClients)), ("virtualserver_uptime", FormatInt(uptime)),
     ("virtualserver_name", name)]
  }

  /** An offline server's fields: id, port, status, name and autostart flag. */
  function OfflineFields(id: int, port: int, name: string, autostart: string): seq<(string, string)> {
    [("virtualserver_id", FormatInt(id)), ("virtualserver_port", FormatInt(port)),
     ("virtualserver_status", "offline"), ("virtualserver_name", name),
     ("virtualserver_autostart", autostart)]
  }

  lemma FormatIntBare(n: int)
    ensures Bare(FormatInt(n))
  {
    FormatIntPlain(n);
  }

  /** Field names are lower-case letters and underscores. */
  predicate KeyChars(k: string) {
    forall i | 0 <= i < |k| :: 'a' <= k[i] <= 'z' || k[i] == '_'
  }

  lemma KeyBare(k: string)
    requires KeyChars(k)
    ensures Bare(k)
  {
  }

  lemma ServerKeys()
    ensures KeyChars("virtualserver_id") && KeyChars("virtualserver_port")
    ensures KeyChars("virtualserver_status") && KeyChars("virtualserver_name")
  {
  }

  lemma OnlineKeys()
    ensures KeyChars("virtualserver_clientsonline") && KeyChars("virtualserver_queryclientsonline")
    ensures KeyChars("virtualserver_maxclients") && KeyChars("virtualserver_uptime")
  {
  }

  /** Any record of eight fields whose values read as the server's parses to that server. */
  lemma ParseOnlineRecord(fields: seq<(string, string)>, v: VirtualServer)
    requires WellFormedFields(fields) && |fields| == 8
    requires ParseInt(fields[0].1) == Ok(v.id) && ParseInt(fields[1].1) == Ok(v.port)
    requires fields[2].1 == v.status && v.status != "offline"
    requires ParseInt(fields[3].1) == Ok(v.clientsOnline) && ParseInt(fields[4].1) == Ok(v.queryClientsOnline)
    requires ParseInt(fields[5].1) == Ok(v.maxClients) && ParseInt(fields[6].1) == Ok(v.uptime)
    requires fields[7].1 == v.name && v.autostart == (fields[4].1 == "8")
    ensures ServerRecordSafe(Record(fields)) && ParseVirtualServer(Record(fields)) == Ok(v)
  {
    RecordTokens(fields);
  }

  /** Any record of five fields with status "offline" parses to the offline server. */
  lemma ParseOfflineRecord(fields: seq<(string, string)>, v: VirtualServer)
    requires WellFormedFields(fields) && |fields| == 5
    requires ParseInt(fields[0].1) == Ok(v.id) && ParseInt(fields[1].1) == Ok(v.port)
    requires fields[2].1 == v.status == "offline"
    requires v.clientsOnline == 0 && v.queryClientsOnline == 0 && v.maxClients == 0 && v.uptime == 0
    requires fields[3].1 == v.name && v.autostart == (fields[4].1 == "1")
    ensures ServerRecordSafe(Record(fields)) && ParseVirtualServer(Record(fields)) == Ok(v)
  {
    RecordTokens(fields);
  }

  /**
   * Parsing an online record gives back its id, port, status, counters and
   * raw name; autostart comes out as "the query-client count is 8".
   */
  lemma ParseOnlineServer(id: int, port: int, status: string, clients: int, queryClients: int,
                          maxClients: int, uptime: int, name: string)
    requires IsInt64(id) && IsInt64(port) && IsInt64(clients) && IsInt64(queryClients)
    requires IsInt64(maxClients) && IsInt64(uptime)
    requires status != "offline" && Bare(status) && Bare(name)
    ensures ServerRecordSafe(Record(OnlineFields(id, port, status, clients, queryClients, maxClients, uptime, name)))
    ensures ParseVirtualServer(Record(OnlineFields(id, port, status, clients, queryClients, maxClients, uptime, name)))
         == Ok(VirtualServer(id, port, status, clients, queryClients, maxClients, uptime, name, queryClients == 8))
  {
    var fields := OnlineFields(id, port, status, clients, queryClients, maxClients, uptime, name);
    OnlineFieldsWellFormed(id, port, status, clients, queryClients, maxClients, uptime, name);
    ParseFormat(id); ParseFormat(port); ParseFormat(clients); ParseFormat(queryClients);
    ParseFormat(maxClients); ParseFormat(uptime);
    FormatEight(queryClients);
    OnlineFieldValues(id, port, status, clients, queryClients, maxClients, uptime, name);
    ParseOnlineRecord(fields, VirtualServer(id, port, status, clients, queryClients, maxClients, uptime, name, queryClients == 8));
  }

  lemma OnlineFieldValues(id: int, port: int, status: string, clients: int, queryClients: int,
                          maxClients: int, uptime: int, name: string)
    ensures var f := OnlineFields(id, port, status, clients, queryClients, maxClients, uptime, name);
      |f| == 8 && f[0].1 == FormatInt(id) && f[1].1 == FormatInt(port) && f[2].1 == status &&
      f[3].1 == FormatInt(clients) && f[4].1 == FormatInt(queryClients) &&
      f[5].1 == FormatInt(maxClients) && f[6].1 == FormatInt(uptime) && f[7].1 == name
  {
  }

  lemma OnlineFieldsWellFormed(id: int, port: int, status: string, clients: int, queryClients: int,
                               maxClients: int, uptime: int, name: string)
    requires Bare(status) && Bare(name)
    ensures WellFormedFields(OnlineFields(id, port, status, clients, queryClients, maxClients, uptime, name))
  {
    var fields := OnlineFields(id, port, status, clients, queryClients, maxClients, uptime, name);
    FormatIntBare(id); FormatIntBare(port); FormatIntBare(clients); FormatIntBare(queryClients);
    FormatIntBare(maxClients); FormatIntBare(uptime);
    ServerKeys(); OnlineKeys();
    forall i | 0 <= i < |fields| ensures |fields[i].0| > 0 && Bare(fields[i].0) { KeyBare(fields[i].0); }
  }

  /** Parsing an offline record gives back id, port and raw name; autostart is "the flag reads 1". */
  lemma ParseOfflineServer(id: int, port: int, name: string, autostart: string)
    requires IsInt64(id) && IsInt64(port) && Bare(name) && Bare(autostart)
    ensures ServerRecordSafe(Record(OfflineFields(id, port, name, autostart)))
    ensures ParseVirtualServer(Record(OfflineFields(id, port, name, autostart)))
         == Ok(VirtualServer(id, port, "offline", 0, 0, 0, 0, name, autostart == "1"))
  {
    OfflineFieldsWellFormed(id, port, name, autostart);
    OfflineFieldValues(id, port, name, autostart);
    ParseFormat(id); ParseFormat(port);
    ParseOfflineRecord(OfflineFields(id, port, name, autostart), VirtualServer(id, port, "offline", 0, 0, 0, 0, name, autostart == "1"));
  }

  lemma OfflineFieldsWellFormed(id: int, port: int, name: string, autostart: string)
    requires Bare(name) && Bare(autostart)
    ensures WellFormedFields(OfflineFields(id, port, name, autostart))
  {
    var fields := OfflineFields(id, port, name, autostart);
    FormatIntBare(id); FormatIntBare(port);
    ServerKeys();
    OfflineKeys();
    forall i | 0 <= i < |fields| ensures |fields[i].0| > 0 && Bare(fields[i].0) { KeyBare(fields[i].0); }
  }

  lemma OfflineKeys()
    ensures KeyChars("virtualserver_autostart") && Bare("offline")
  {
  }

  lemma OfflineFieldValues(id: int, port: int, name: string, autostart: string)
    ensures var f := OfflineFields(id, port, name, autostart);
      |f| == 5 && f[0].1 == FormatInt(id) && f[1].1 == FormatInt(port) && f[2].1 == "offline" &&
      f[3].1 == name && f[4].1 == autostart
  {
  }

  lemma FormatEight(n: int)
    requires IsInt64(n)
    ensures FormatInt(n) == "8" <==> n == 8
  {
    ParseFormat(n);
    assert ParseInt("8") == Ok(8) by { assert DigitsValue("8") == 8; }
  }
}
