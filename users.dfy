/**
 * The client lookups of user.go: the map of active sessions per database
 * id (ActiveClients), the database record of one client (FindUserByDbId)
 * and the search by custom field (FindUserByCustomSearch).
 */
module Users {
  import opened Wrappers
  import opened Strs
  import opened Strconv
  import opened Codec
  import opened Utils
  import opened Ts3
  import opened Records

  /** User (user.go:8-19). */
  datatype User = User(cldbid: int, cluid: string, lastConnected: string, lastIP: string,
                       activeSessionIds: seq<int>, nickname: string)

  const EmptyUser := User(0, "", "", "", [], "")

  /** A reply of at most two lines carries no record (user.go:26, 53; servergroups.go:33). */
  predicate NoRecords(res: string) { |Split(res, "\n")| <= 2 }

  /** Reading a missing key of a Go map gives the nil slice. */
  function Lookup(m: map<int, seq<int>>, k: int): seq<int> {
    if k in m then m[k] else []
  }

  // ------------------------------------------------------------- clientlist

  /** The fields of a clientlist record the loop touches hold an `=`, in the order it touches them. */
  predicate ClientRecordSafe(rec: string) {
    var c := Split(rec, " ");
    |c| >= 3 && '=' in c[2] && (ParseInt(GetVal(c[2])).Ok? ==> '=' in c[0])
  }

  /** One clientlist record as the loop of ActiveClients reads it (user.go:32-42): (cldbid, clid). */
  function ParseClient(rec: string): (r: Result<(int, int), NumError>)
    requires ClientRecordSafe(rec)
    ensures r.Ok? ==> IsInt64(r.value.0) && IsInt64(r.value.1)
  {
    var c := Split(rec, " ");
    match ParseInt(GetVal(c[2]))
    case Err(e) => Err(e)
    case Ok(cldbid) =>
      match ParseInt(GetVal(c[0]))
      case Err(e) => Err(e)
      case Ok(clid) => Ok((cldbid, clid))
  }

  /**
   * A clientlist record of well-formed fields reads its cldbid from field 2
   * and its clid from field 0.
   */
  lemma ClientRecord(fields: seq<(string, string)>, cldbid: int, clid: int)
    requires WellFormedFields(fields) && |fields| >= 3 && IsInt64(cldbid) && IsInt64(clid)
    requires fields[0].1 == FormatInt(clid) && fields[2].1 == FormatInt(cldbid)
    ensures ClientRecordSafe(Record(fields)) && ParseClient(Record(fields)) == Ok((cldbid, clid))
  {
    RecordWords(fields);
    ParseFormat(cldbid);
    ParseFormat(clid);
  }

  /** The map the loop builds: each clid appended to the list of its cldbid, pair after pair. */
  function Group(pairs: seq<(int, int)>): (r: map<int, seq<int>>)
    ensures forall i | 0 <= i < |pairs| :: pairs[i].0 in r
    ensures forall k | k in r :: r[k] != []
    decreases |pairs|
  {
    if |pairs| == 0 then map[]
    else
      var m := Group(pairs[..|pairs| - 1]);
      var p := pairs[|pairs| - 1];
      m[p.0 := Lookup(m, p.0) + [p.1]]
  }

  /** Group of one more pair: the pair's clid is appended under its cldbid. */
  lemma GroupSnoc(done: seq<(int, int)>, p: (int, int))
    ensures Group(done + [p]) == Group(done)[p.0 := Lookup(Group(done), p.0) + [p.1]]
  {
    assert (done + [p])[..|done|] == done;
  }

  /** The clids paired with `k`, in order: the reference for what Group keeps under `k`. */
  function ClidsOf(pairs: seq<(int, int)>, k: int): seq<int>
    decreases |pairs|
  {
    if |pairs| == 0 then []
    else ClidsOf(pairs[..|pairs| - 1], k) + (if pairs[|pairs| - 1].0 == k then [pairs[|pairs| - 1].1] else [])
  }

  ghost predicate ClientListSafe(w: Wire) {
    WireValid(w) &&
    var res := Send(w, "clientlist").0;
    NoRecords(res) || SafeUntilFailure(ParseClient, Split(res, "|"))
  }

  /**
   * ActiveClients (user.go:22-48) on a reply: no records gives the empty map;
   * otherwise the whole reply is split on `|` and the pairs up to the first
   * failure are grouped; the map built so far comes back with the error.
   */
  function ActiveClientsOf(res: string): (r: (map<int, seq<int>>, Option<NumError>))
    requires NoRecords(res) || SafeUntilFailure(ParseClient, Split(res, "|"))
    ensures NoRecords(res) ==> r == (map[], None)
    ensures forall k | k in r.0 :: r.0[k] != []
  {
    if NoRecords(res) then (map[], None)
    else
      var parsed := ParseEach(ParseClient, Split(res, "|"));
      (Group(parsed.0), parsed.1)
  }

  method ActiveClients(c: Conn) returns (clients: map<int, seq<int>>, err: Option<NumError>)
    requires c.Valid() && ClientListSafe(c.State())
    modifies c
    ensures c.Valid() && c.State() == Send(old(c.State()), "clientlist").1
    ensures (clients, err) == ActiveClientsOf(Send(old(c.State()), "clientlist").0)
  {
    var res := c.Exec("clientlist");
    if NoRecords(res) {
      return map[], None;
    }
    clients, err := GroupClients(Split(res, "|"));
  }

  /**
   * The loop of ActiveClients (user.go:31-45): each record's clid is
   * appended, in place, to the list of its cldbid; the first record that
   * fails stops the loop with the map built so far.
   */
  method GroupClients(parts: seq<string>) returns (clients: map<int, seq<int>>, err: Option<NumError>)
    requires SafeUntilFailure(ParseClient, parts)
    ensures clients == Group(ParseEach(ParseClient, parts).0) && err == ParseEach(ParseClient, parts).1
  {
    clients := map[];
    var i := 0;
    ghost var done: seq<(int, int)> := [];
    assert parts[i..] == parts;
    assert done + ParseEach(ParseClient, parts).0 == ParseEach(ParseClient, parts).0;
    while i < |parts|
      invariant 0 <= i <= |parts|
      invariant SafeUntilFailure(ParseClient, parts[i..])
      invariant ParseEach(ParseClient, parts) == (done + ParseEach(ParseClient, parts[i..]).0, ParseEach(ParseClient, parts[i..]).1)
      invariant clients == Group(done)
      decreases |parts| - i
    {
      ParseEachStep(ParseClient, parts, i, done);
      var r := ParseClient(parts[i]);
      if r.Err? {
        return clients, Some(r.error);
      }
      var p := r.value;
      clients := clients[p.0 := Lookup(clients, p.0) + [p.1]];
      GroupSnoc(done, p);
      done := done + [p];
      i := i + 1;
    }
    assert parts[i..] == [] && done + [] == done;
    err := None;
  }

  // ---------------------------------------------------------- clientdbinfo

  function DbInfoCommand(cldbid: int): string { "clientdbinfo cldbid=" + FormatInt(cldbid) }

  /** FindUserByDbId does not panic: the first line has fourteen words and the four it reads hold an `=`. */
  predicate UserInfoSafe(res: string) {
    NoRecords(res) ||
    var p := Split(Split(res, "\n")[0], " ");
    |p| >= 14 && '=' in p[0] && '=' in p[1] && '=' in p[4] && '=' in p[13]
  }

  /**
   * FindUserByDbId (user.go:51-67) on a reply: nothing for a reply without
   * records; otherwise words 0, 4 and 13 of the first line as they stand,
   * word 1 decoded as the nickname, the database id taken from the argument
   * and no session ids.
   */
  function ParseUserInfo(res: string, cldbid: int): (r: Option<User>)
    requires UserInfoSafe(res)
    ensures r.None? <==> NoRecords(res)
    ensures r.Some? ==> r.value.cldbid == cldbid && r.value.activeSessionIds == []
  {
    if NoRecords(res) then None
    else
      var p := Split(Split(res, "\n")[0], " ");
      Some(User(cldbid, GetVal(p[0]), GetVal(p[4]), GetVal(p[13]), [], Decode(GetVal(p[1]))))
  }

  ghost predicate FindUserSafe(w: Wire, cldbid: int) {
    WireValid(w) && UserInfoSafe(Send(w, DbInfoCommand(cldbid)).0)
  }

  function FindUser(w: Wire, cldbid: int): (r: (Option<User>, Wire))
    requires FindUserSafe(w, cldbid)
    ensures WireValid(r.1)
    ensures r.0.Some? ==> r.0.value.cldbid == cldbid
  {
    var (res, w1) := Send(w, DbInfoCommand(cldbid));
    (ParseUserInfo(res, cldbid), w1)
  }

  method FindUserByDbId(c: Conn, cldbid: int) returns (user: Option<User>)
    requires c.Valid() && FindUserSafe(c.State(), cldbid)
    modifies c
    ensures c.Valid() && (user, c.State()) == FindUser(old(c.State()), cldbid)
  {
    var res := c.Exec(DbInfoCommand(cldbid));
    user := ParseUserInfo(res, cldbid);
  }

  // ----------------------------------------------------------- customsearch

  /**
   * The command of FindUserByCustomSearch (user.go:72-75): spaces become `_`,
   * nothing else is escaped, so the command has exactly three words.
   */
  function CustomSearchCommand(ident: string, value: string): (r: string)
    ensures Split(r, " ") == ["customsearch", "ident=" + SubstChar(ident, ' ', '_'), "pattern=" + SubstChar(value, ' ', '_')]
  {
    var i' := SubstChar(ident, ' ', '_');
    var v' := SubstChar(value, ' ', '_');
    ReplaceAllChar(ident, ' ', '_');
    ReplaceAllChar(value, ' ', '_');
    SpacesReplaced(ident);
    SpacesReplaced(value);
    SearchLiterals();
    NoCharInToken("ident", i', ' ');
    NoCharInToken("pattern", v', ' ');
    SearchShape(i', v');
    SplitThree("customsearch", "ident=" + i', "pattern=" + v', ' ');
    "customsearch ident=" + ReplaceAll(ident, " ", "_") + " pattern=" + ReplaceAll(value, " ", "_")
  }

  /** The database id the search reads: word 0 of the value of the first line's first field. */
  function SearchHit(line: string): Result<int, NumError>
    requires '=' in line
  {
    ParseInt(Split(GetVal(line), " ")[0])
  }

  /** The search does not panic on reply `res`, the lookup included, which runs on `w`. */
  ghost predicate SearchSafe(res: string, w: Wire) {
    SearchLinesSafe(Split(res, "\n"), w)
  }

  ghost predicate SearchLinesSafe(lines: seq<string>, w: Wire) {
    |lines| >= 2 && StatusSafe(lines[|lines| - 2]) &&
    (|lines| > 2 ==> '=' in lines[0] && (SearchHit(lines[0]).Ok? ==> FindUserSafe(w, SearchHit(lines[0]).value)))
  }

  /**
   * FindUserByCustomSearch (user.go:71-93) after the search reply `res`:
   * the status comes from the second-to-last line, read before the length
   * check; a reply without records gives an empty user; an unparsable id
   * gives an empty user and the error; otherwise the lookup's user, present
   * or not, and no error.
   */
  function SearchReply(res: string, w: Wire): (r: (QueryResponse, Option<User>, Option<NumError>, Wire))
    requires SearchSafe(res, w)
    ensures r.2.Some? ==> r.1 == Some(EmptyUser)
    ensures r.1.None? ==> !NoRecords(res)
  {
    var lines := Split(res, "\n");
    var qr := ParseQueryResponse(lines[|lines| - 2]);
    if |lines| <= 2 then (qr, Some(EmptyUser), None, w)
    else
      match SearchHit(lines[0])
      case Err(e) => (qr, Some(EmptyUser), Some(e), w)
      case Ok(cldbid) =>
        var (user, w1) := FindUser(w, cldbid);
        (qr, user, None, w1)
  }

  ghost predicate CustomSearchSafe(w: Wire, ident: string, value: string) {
    WireValid(w) && SearchSafe(Send(w, CustomSearchCommand(ident, value)).0, Send(w, CustomSearchCommand(ident, value)).1)
  }

  function CustomSearch(w: Wire, ident: string, value: string): (r: (QueryResponse, Option<User>, Option<NumError>, Wire))
    requires CustomSearchSafe(w, ident, value)
  {
    SearchReply(Send(w, CustomSearchCommand(ident, value)).0, Send(w, CustomSearchCommand(ident, value)).1)
  }

  method FindUserByCustomSearch(c: Conn, ident: string, value: string)
      returns (qr: QueryResponse, user: Option<User>, err: Option<NumError>)
    requires c.Valid() && CustomSearchSafe(c.State(), ident, value)
    modifies c
    ensures c.Valid() && (qr, user, err, c.State()) == CustomSearch(old(c.State()), ident, value)
  {
    var res := c.Exec(CustomSearchCommand(ident, value));
    qr, user, err := ReadSearchReply(c, res);
  }

  /** The part of FindUserByCustomSearch after the search command has been answered. */
  method ReadSearchReply(c: Conn, res: string) returns (qr: QueryResponse, user: Option<User>, err: Option<NumError>)
    requires c.Valid() && SearchSafe(res, c.State())
    modifies c
    ensures c.Valid() && (qr, user, err, c.State()) == SearchReply(res, old(c.State()))
  {
    ghost var w := c.State();
    var lines := Split(res, "\n");
    assert SearchLinesSafe(lines, w);
    qr := ParseQueryResponse(lines[|lines| - 2]);
    if |lines| <= 2 {
      SearchReplyNone(res, w, lines, qr);
      return qr, Some(EmptyUser), None;
    }
    var hit := SearchHit(lines[0]);
    if hit.Err? {
      SearchReplyMiss(res, w, lines, qr, hit.error);
      return qr, Some(EmptyUser), Some(hit.error);
    }
    user := FindUserByDbId(c, hit.value);
    err := None;
    SearchReplyHit(res, w, lines, qr, hit.value, user, c.State());
  }


  /** A reply without records gives the empty user and leaves the connection alone. */
  lemma SearchReplyNone(res: string, w: Wire, lines: seq<string>, qr: QueryResponse)
    requires SearchSafe(res, w) && lines == Split(res, "\n") && |lines| <= 2
    requires qr == ParseQueryResponse(lines[|lines| - 2])
    ensures SearchReply(res, w) == (qr, Some(EmptyUser), None, w)
  {
  }

  /** A reply whose id does not read gives the empty user and the error, and no lookup. */
  lemma SearchReplyMiss(res: string, w: Wire, lines: seq<string>, qr: QueryResponse, e: NumError)
    requires SearchSafe(res, w) && lines == Split(res, "\n") && |lines| > 2 && SearchHit(lines[0]) == Err(e)
    requires qr == ParseQueryResponse(lines[|lines| - 2])
    ensures SearchReply(res, w) == (qr, Some(EmptyUser), Some(e), w)
  {
  }

  /** A reply with records and a readable id leads to the lookup of that id. */
  lemma SearchReplyHit(res: string, w: Wire, lines: seq<string>, qr: QueryResponse, cldbid: int, user: Option<User>, w1: Wire)
    requires SearchSafe(res, w) && lines == Split(res, "\n") && |lines| > 2 && SearchHit(lines[0]) == Ok(cldbid)
    requires qr == ParseQueryResponse(lines[|lines| - 2])
    requires (user, w1) == FindUser(w, cldbid)
    ensures SearchReply(res, w) == (qr, user, None, w1)
  {
  }

  // ---------------------------------------------------------------- lemmas

  /** Under each database id the map keeps exactly that client's clids, in record order. */
  lemma {:induction false} GroupLookup(pairs: seq<(int, int)>, k: int)
    ensures Lookup(Group(pairs), k) == ClidsOf(pairs, k)
    ensures k in Group(pairs) <==> ClidsOf(pairs, k) != []
    decreases |pairs|
  {
    if |pairs| > 0 {
      GroupLookup(pairs[..|pairs| - 1], k);
    }
  }

  /** Each record's clid is among those kept for its cldbid. */
  lemma {:induction false} ClidsOfHas(pairs: seq<(int, int)>, i: nat)
    requires i < |pairs|
    ensures pairs[i].1 in ClidsOf(pairs, pairs[i].0)
    decreases |pairs|
  {
    if i < |pairs| - 1 {
      ClidsOfHas(pairs[..|pairs| - 1], i);
    }
  }

  /** Only the cldbid of some record has clids kept for it. */
  lemma {:induction false} ClidsOfKey(pairs: seq<(int, int)>, k: int)
    requires ClidsOf(pairs, k) != []
    ensures exists i :: 0 <= i < |pairs| && pairs[i].0 == k
    decreases |pairs|
  {
    var init := pairs[..|pairs| - 1];
    if pairs[|pairs| - 1].0 != k {
      ClidsOfKey(init, k);
      var i :| 0 <= i < |init| && init[i].0 == k;
      assert pairs[i] == init[i];
    }
  }

  /**
   * When ActiveClients completes, the map holds under each cldbid exactly
   * the clids of its records, in record order; its keys are exactly the
   * cldbids that occur.
   */
  lemma ActiveClientsComplete(res: string)
    requires !NoRecords(res) && SafeUntilFailure(ParseClient, Split(res, "|"))
    ensures var pairs := ParseEach(ParseClient, Split(res, "|")).0;
      && (forall k :: Lookup(ActiveClientsOf(res).0, k) == ClidsOf(pairs, k))
      && (forall i | 0 <= i < |pairs| :: pairs[i].0 in ActiveClientsOf(res).0 && pairs[i].1 in ActiveClientsOf(res).0[pairs[i].0])
      && (forall k | k in ActiveClientsOf(res).0 :: exists i :: 0 <= i < |pairs| && pairs[i].0 == k)
  {
    var pairs := ParseEach(ParseClient, Split(res, "|")).0;
    forall k ensures Lookup(Group(pairs), k) == ClidsOf(pairs, k) {
      GroupLookup(pairs, k);
    }
    forall i | 0 <= i < |pairs| ensures pairs[i].0 in Group(pairs) && pairs[i].1 in Group(pairs)[pairs[i].0] {
      ClidsOfHas(pairs, i);
      GroupLookup(pairs, pairs[i].0);
    }
    forall k | k in Group(pairs) ensures exists i :: 0 <= i < |pairs| && pairs[i].0 == k {
      GroupLookup(pairs, k);
      ClidsOfKey(pairs, k);
    }
  }

  /** The number of clids the map holds, all database ids together. */
  ghost function TotalSessions(m: map<int, seq<int>>): nat
    decreases |m|
  {
    if |m| == 0 then 0
    else
      var k := SomeId(m);
      |m[k]| + TotalSessions(m - {k})
  }

  /** Some database id of a non-empty map. */
  ghost function SomeId(m: map<int, seq<int>>): (k: int)
    requires |m| > 0
    ensures k in m
  {
    IdsExist(m);
    var k :| k in m.Keys; k
  }

  lemma IdsExist(m: map<int, seq<int>>)
    requires |m| > 0
    ensures exists k :: k in m.Keys
  {
    if forall k :: k !in m.Keys {
      assert false;
    }
  }

  /** The total does not depend on which id is counted first. */
  lemma {:induction false} TotalSessionsRemove(m: map<int, seq<int>>, k: int)
    requires k in m
    ensures TotalSessions(m) == |m[k]| + TotalSessions(m - {k})
    decreases |m|
  {
    var j := SomeId(m);
    if j != k {
      TotalSessionsRemove(m - {j}, k);
      TotalSessionsRemove(m - {k}, j);
      RemoveBoth(m, j, k);
    }
  }

  lemma RemoveBoth(m: map<int, seq<int>>, j: int, k: int)
    ensures (m - {j}) - {k} == (m - {k}) - {j}
  {
  }

  /** Storing a list under an id changes the total by the difference of the lists. */
  lemma TotalSessionsUpdate(m: map<int, seq<int>>, k: int, v: seq<int>)
    ensures TotalSessions(m[k := v]) + |Lookup(m, k)| == TotalSessions(m) + |v|
  {
    TotalSessionsRemove(m[k := v], k);
    UpdateRemove(m, k, v);
    if k in m {
      TotalSessionsRemove(m, k);
    }
  }

  lemma UpdateRemove(m: map<int, seq<int>>, k: int, v: seq<int>)
    ensures m[k := v] - {k} == m - {k}
    ensures k !in m ==> m - {k} == m
  {
  }

  /** The map built from the pairs holds one clid per pair. */
  lemma {:induction false} GroupTotal(pairs: seq<(int, int)>)
    ensures TotalSessions(Group(pairs)) == |pairs|
    decreases |pairs|
  {
    if |pairs| > 0 {
      var m := Group(pairs[..|pairs| - 1]);
      var p := pairs[|pairs| - 1];
      GroupTotal(pairs[..|pairs| - 1]);
      TotalSessionsUpdate(m, p.0, Lookup(m, p.0) + [p.1]);
    }
  }

  /** When ActiveClients completes, its lists hold as many clids, all together, as the reply has records. */
  lemma ActiveClientsTotal(res: string)
    requires !NoRecords(res) && SafeUntilFailure(ParseClient, Split(res, "|"))
    requires ActiveClientsOf(res).1.None?
    ensures TotalSessions(ActiveClientsOf(res).0) == |Split(res, "|")|
  {
    GroupTotal(ParseEach(ParseClient, Split(res, "|")).0);
  }

  lemma SearchShape(i': string, v': string)
    ensures "customsearch ident=" + i' + " pattern=" + v'
         == "customsearch" + [' '] + ("ident=" + i') + [' '] + ("pattern=" + v')
  {
    SearchLiterals();
  }

  lemma SpacesReplaced(t: string)
    ensures ' ' !in SubstChar(t, ' ', '_')
  {
  }

  lemma SearchLiterals()
    ensures ' ' !in "customsearch" && ' ' !in "ident" && ' ' !in "pattern"
    ensures "ident" + "=" == "ident=" && "pattern" + "=" == "pattern="
    ensures "customsearch ident=" == "customsearch" + [' '] + "ident=" && " pattern=" == [' '] + "pattern="
  {
  }


  /**
   * A clientdbinfo reply whose first line is a record of at least fourteen
   * well-formed fields yields the user of fields 0, 4 and 13, with field 1
   * decoded as the nickname.
   */
  lemma UserInfoRecord(fields: seq<(string, string)>, rest: string, cldbid: int)
    requires WellFormedFields(fields) && |fields| >= 14 && '\n' in rest
    ensures UserInfoSafe(Record(fields) + "\n" + rest)
    ensures ParseUserInfo(Record(fields) + "\n" + rest, cldbid)
         == Some(User(cldbid, fields[0].1, fields[4].1, fields[13].1, [], Decode(fields[1].1)))
  {
    var res := Record(fields) + "\n" + rest;
    RecordOneLine(fields);
    SplitCharAfter(Record(fields), '\n', rest);
    SplitHasBreak(rest, '\n');
    assert !NoRecords(res);
    RecordWords(fields);
  }

  /**
   * Unlike the commands that parse the whole reply, the search reads its
   * status from the second-to-last line: on a reply of one record and a
   * status line, each ended by `\n\r` as the server ends its lines and
   * padded as Exec returns it, the status is read intact, the `\r` that
   * opens its line being white space.
   */
  lemma CustomSearchReadsStatus(rec: string, id: int, msg: string)
    requires '\n' !in rec && IsInt64(id) && Plain(msg)
    requires |rec + "\n\r" + StatusLine(FormatInt(id), msg) + "\n\r"| <= Bytes
    ensures var lines := Split(FillBuffer(rec + "\n\r" + StatusLine(FormatInt(id), msg) + "\n\r"), "\n");
      |lines| == 3 && lines[0] == rec && StatusSafe(lines[1]) && ParseQueryResponse(lines[1]) == QueryResponse(id, msg, msg == "ok")
  {
    var status := StatusLine(FormatInt(id), msg);
    var line := "\r" + status;
    var data := rec + "\n\r" + status + "\n\r";
    var tail := "\r" + Nuls(Bytes - |data|);
    PaddedLines(rec, status);
    StatusLineOneLine(id, msg);
    assert '\n' !in line;
    assert '\n' !in tail;
    SplitThree(rec, line, tail, '\n');
    var lines := Split(FillBuffer(data), "\n");
    assert lines == [rec, line, tail];
    LeadingSpaceTokens('\r', status);
    ParseStatusLineInt(id, msg);
    assert ParseQueryResponse(lines[1]) == ParseQueryResponse(status);
  }

  /** The padded reply laid out as three `\n`-separated pieces, the last two opened by `\r`. */
  lemma PaddedLines(rec: string, status: string)
    requires |rec + "\n\r" + status + "\n\r"| <= Bytes
    ensures FillBuffer(rec + "\n\r" + status + "\n\r")
         == rec + "\n" + ("\r" + status) + "\n" + ("\r" + Nuls(Bytes - |rec + "\n\r" + status + "\n\r"|))
  {
  }

  /** A status line holds no line break: the message is escaped and the id is digits. */
  lemma StatusLineOneLine(id: int, msg: string)
    ensures '\n' !in StatusLine(FormatInt(id), msg)
  {
    var status := StatusLine(FormatInt(id), msg);
    EncodeNoRaw(msg, '\n');
    FormatIntPlain(id);
    forall j | 0 <= j < |status| ensures status[j] != '\n' {
      var p := "error id=" + FormatInt(id) + " msg=";
      if j >= |p| { assert status[j] == Encode(msg)[j - |p|]; }
      else if j >= 9 { assert status[j] == (FormatInt(id) + " msg=")[j - 9]; }
    }
  }
}
