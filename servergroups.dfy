/**
 * The server-group commands of servergroups.go: listing the groups, adding
 * and removing a client, listing a group's members with their sessions, and
 * poking every session of a group's members.
 */
module ServerGroups {
  import opened Wrappers
  import opened Strs
  import opened Strconv
  import opened Codec
  import opened Utils
  import opened Ts3
  import opened Records
  import opened Users

  /** GroupType (servergroups.go:9-15). */
  const TemplateGroup := 0
  const RegularGroup := 1
  const QueryGroup := 2

  /** ServerGroup (servergroups.go:17-25). */
  datatype ServerGroup = ServerGroup(id: int, name: string, groupType: int)

  // ------------------------------------------------------- servergrouplist

  /**
   * The fields of a servergrouplist record the loop touches hold an `=`, in
   * the order it touches them: the id, then the type, then the name.
   */
  predicate GroupRecordSafe(rec: string) {
    var seg := Split(rec, " ");
    '=' in seg[0] &&
    (ParseInt(GetVal(seg[0])).Ok? ==>
      |seg| >= 3 && '=' in seg[2] && (ParseInt(GetVal(seg[2])).Ok? ==> '=' in seg[1]))
  }

  /** One servergrouplist record (servergroups.go:40-58): id and type as integers, the name decoded. */
  function ParseGroup(rec: string): (r: Result<ServerGroup, NumError>)
    requires GroupRecordSafe(rec)
    ensures r.Ok? ==> IsInt64(r.value.id) && IsInt64(r.value.groupType)
  {
    var seg := Split(rec, " ");
    match ParseInt(GetVal(seg[0]))
    case Err(e) => Err(e)
    case Ok(id) =>
      match ParseInt(GetVal(seg[2]))
      case Err(e) => Err(e)
      case Ok(groupType) => Ok(ServerGroup(id, Decode(GetVal(seg[1])), groupType))
  }

  /** The records of a list reply: the first line, split on `|`. */
  function FirstLineRecords(res: string): seq<string> {
    Split(Split(res, "\n")[0], "|")
  }

  ghost predicate GroupListSafe(res: string) {
    NoRecords(res) || SafeUntilFailure(ParseGroup, FirstLineRecords(res))
  }

  /**
   * ServerGroups (servergroups.go:28-62) on a reply: nothing and no error
   * for a reply without records; nothing and the error when a record fails;
   * otherwise every group, in order.
   */
  function ServerGroupsOf(res: string): (r: (Option<seq<ServerGroup>>, Option<NumError>))
    requires GroupListSafe(res)
    ensures r == (None, None) <==> NoRecords(res)
    ensures r.0.Some? ==> r.1.None? && |r.0.value| == |FirstLineRecords(res)|
    ensures r.1.Some? ==> r.0.None?
  {
    if NoRecords(res) then (None, None)
    else
      var parsed := ParseEach(ParseGroup, FirstLineRecords(res));
      if parsed.1.Some? then (None, parsed.1) else (Some(parsed.0), None)
  }

  /** Group i of the list is the parse of record i of the reply's first line. */
  lemma ServerGroupsValues(res: string, i: nat)
    requires GroupListSafe(res) && ServerGroupsOf(res).0.Some? && i < |ServerGroupsOf(res).0.value|
    ensures GroupRecordSafe(FirstLineRecords(res)[i])
    ensures ParseGroup(FirstLineRecords(res)[i]) == Ok(ServerGroupsOf(res).0.value[i])
  {
    ParseEachAt(ParseGroup, FirstLineRecords(res), i);
  }

  method ListServerGroups(c: Conn) returns (groups: Option<seq<ServerGroup>>, err: Option<NumError>)
    requires c.Valid() && WireValid(c.State()) && GroupListSafe(Send(c.State(), "servergrouplist").0)
    modifies c
    ensures c.Valid() && c.State() == Send(old(c.State()), "servergrouplist").1
    ensures (groups, err) == ServerGroupsOf(Send(old(c.State()), "servergrouplist").0)
  {
    var res := c.Exec("servergrouplist");
    if NoRecords(res) {
      return None, None;
    }
    var vs, e := ParseLoop(ParseGroup, FirstLineRecords(res));
    if e.Some? {
      return None, e;
    }
    return Some(vs), None;
  }

  // ------------------------------------------- add and remove a client

  /** The shape both client commands share (servergroups.go:66, 78). */
  function ClientCommand(verb: string, sgid: int, cldbid: int): string {
    verb + " sgid=" + FormatInt(sgid) + " cldbid=" + FormatInt(cldbid)
  }

  function AddClientCommand(sgid: int, cldbid: int): string { ClientCommand("servergroupaddclient", sgid, cldbid) }
  function RemoveClientCommand(sgid: int, cldbid: int): string { ClientCommand("servergroupdelclient", sgid, cldbid) }

  /** ServerGroupAddClient (servergroups.go:65-74). */
  method ServerGroupAddClient(c: Conn, sgid: int, cldbid: int) returns (r: QueryResponse)
    requires c.Valid() && QuerySafe(c.State(), AddClientCommand(sgid, cldbid))
    modifies c
    ensures c.Valid()
    ensures (r, c.State()) == Query(old(c.State()), AddClientCommand(sgid, cldbid))
  {
    r := Command(c, AddClientCommand(sgid, cldbid));
  }

  /** ServerGroupRemoveClient (servergroups.go:77-85). */
  method ServerGroupRemoveClient(c: Conn, sgid: int, cldbid: int) returns (r: QueryResponse)
    requires c.Valid() && QuerySafe(c.State(), RemoveClientCommand(sgid, cldbid))
    modifies c
    ensures c.Valid()
    ensures (r, c.State()) == Query(old(c.State()), RemoveClientCommand(sgid, cldbid))
  {
    r := Command(c, RemoveClientCommand(sgid, cldbid));
  }

  // ------------------------------------------------- servergroupclientlist

  function MembersCommand(sgid: int): string { "servergroupclientlist sgid=" + FormatInt(sgid) }

  /** The database id of a member record: the record with every `cldbid=` removed. */
  function MemberId(rec: string): (r: Result<int, NumError>)
    ensures r.Ok? ==> IsInt64(r.value)
  {
    ParseInt(ReplaceAll(rec, "cldbid=", ""))
  }

  /**
   * The member loop does not panic: each lookup it reaches, up to the first
   * record that fails to parse, finds the client (a missing one is a nil
   * pointer in the source).
   */
  ghost predicate CollectSafe(w: Wire, parts: seq<string>)
    decreases |parts|
  {
    WireValid(w) &&
    (|parts| == 0 ||
     (MemberId(parts[0]).Ok? ==>
       var id := MemberId(parts[0]).value;
       FindUserSafe(w, id) && FindUser(w, id).0.Some? && CollectSafe(FindUser(w, id).1, parts[1..])))
  }

  /**
   * The member loop (servergroups.go:103-122): each record's user, looked up
   * on the connection in turn, with the sessions of its database id; the
   * first record that is not a number stops it with the error.
   */
  function Collect(w: Wire, parts: seq<string>, sessions: map<int, seq<int>>): (r: (seq<User>, Option<NumError>, Wire))
    requires CollectSafe(w, parts)
    ensures WireValid(r.2)
    ensures |r.0| <= |parts| && (r.1.None? <==> |r.0| == |parts|)
    decreases |parts|
  {
    if |parts| == 0 then ([], None, w)
    else
      match MemberId(parts[0])
      case Err(e) => ([], Some(e), w)
      case Ok(id) =>
        var (u, w1) := FindUser(w, id);
        var user := u.value.(activeSessionIds := Lookup(sessions, id));
        var rest := Collect(w1, parts[1..], sessions);
        ([user] + rest.0, rest.1, rest.2)
  }

  /** ServerGroupMembers does not panic on connection state `w`. */
  ghost predicate MembersSafe(w: Wire, sgid: int) {
    WireValid(w) &&
    var (res, w1) := Send(w, MembersCommand(sgid));
    ClientListSafe(w1) &&
    (ActiveClientsOf(Send(w1, "clientlist").0).1.None? ==>
      CollectSafe(Send(w1, "clientlist").1, FirstLineRecords(res)))
  }

  /**
   * ServerGroupMembers (servergroups.go:88-125): the member list is fetched
   * first, then the active sessions; an error from either stage gives no
   * list and that error. The member reply is not checked for records: a
   * reply without any fails to parse as a number.
   */
  function Members(w: Wire, sgid: int): (r: (Option<seq<User>>, Option<NumError>, Wire))
    requires MembersSafe(w, sgid)
    ensures WireValid(r.2)
    ensures r.0.Some? <==> r.1.None?
  {
    var (res, w1) := Send(w, MembersCommand(sgid));
    var (sessions, err) := ActiveClientsOf(Send(w1, "clientlist").0);
    var w2 := Send(w1, "clientlist").1;
    if err.Some? then (None, err, w2)
    else
      var (users, e, w3) := Collect(w2, FirstLineRecords(res), sessions);
      if e.Some? then (None, e, w3) else (Some(users), None, w3)
  }

  method ServerGroupMembers(c: Conn, sgid: int) returns (users: Option<seq<User>>, err: Option<NumError>)
    requires c.Valid() && MembersSafe(c.State(), sgid)
    modifies c
    ensures c.Valid() && (users, err, c.State()) == Members(old(c.State()), sgid)
  {
    var res := c.Exec(MembersCommand(sgid));
    var sessions, e := ActiveClients(c);
    if e.Some? {
      return None, e;
    }
    var found, e2 := CollectMembers(c, FirstLineRecords(res), sessions);
    if e2.Some? {
      return None, e2;
    }
    return Some(found), None;
  }

  /** The loop of ServerGroupMembers, one lookup per record. */
  method CollectMembers(c: Conn, parts: seq<string>, sessions: map<int, seq<int>>) returns (users: seq<User>, err: Option<NumError>)
    requires c.Valid() && CollectSafe(c.State(), parts)
    modifies c
    ensures c.Valid() && (users, err, c.State()) == Collect(old(c.State()), parts, sessions)
  {
    ghost var w0 := c.State();
    users := [];
    var i := 0;
    CollectStart(w0, parts, sessions);
    while i < |parts|
      invariant 0 <= i <= |parts| && c.Valid()
      invariant Resumes(w0, parts, sessions, i, users, c.State())
      decreases |parts| - i
    {
      var id := MemberId(parts[i]);
      if id.Err? {
        CollectStops(c.State(), parts, sessions, i, users, w0);
        return users, Some(id.error);
      }
      CollectStep(c.State(), parts, sessions, i, users, w0);
      var u := FindUserByDbId(c, id.value);
      var user := u.value;
      user := user.(activeSessionIds := Lookup(sessions, user.cldbid));
      users := users + [user];
      i := i + 1;
    }
    CollectEnd(w0, parts, sessions, users, c.State());
    err := None;
  }

  /** After `i` records the loop has `users`, and the rest of Collect, from state `w`, gives the remainder. */
  ghost predicate Resumes(w0: Wire, parts: seq<string>, sessions: map<int, seq<int>>, i: nat, users: seq<User>, w: Wire)
    requires i <= |parts|
  {
    CollectSafe(w0, parts) && CollectSafe(w, parts[i..]) &&
    Collect(w0, parts, sessions) == (users + Collect(w, parts[i..], sessions).0,
      Collect(w, parts[i..], sessions).1, Collect(w, parts[i..], sessions).2)
  }

  lemma CollectStart(w0: Wire, parts: seq<string>, sessions: map<int, seq<int>>)
    requires CollectSafe(w0, parts)
    ensures Resumes(w0, parts, sessions, 0, [], w0)
  {
    assert parts[0..] == parts;
    assert [] + Collect(w0, parts, sessions).0 == Collect(w0, parts, sessions).0;
  }

  lemma CollectEnd(w0: Wire, parts: seq<string>, sessions: map<int, seq<int>>, users: seq<User>, w: Wire)
    requires Resumes(w0, parts, sessions, |parts|, users, w)
    ensures Collect(w0, parts, sessions) == (users, None, w)
  {
    assert parts[|parts|..] == [] && users + [] == users;
  }


  // -------------------------------------------------------------- poke

  /** The poke of one session: the id and the message, which must already be escaped, as two arguments. */
  function PokeCommand(clid: int, m: string): (r: string)
    ensures ' ' !in m ==> Split(r, " ") == ["clientpoke", "clid=" + FormatInt(clid), "msg=" + m]
  {
    var r := "clientpoke clid=" + FormatInt(clid) + " msg=" + m;
    assert ' ' !in m ==> Split(r, " ") == ["clientpoke", "clid=" + FormatInt(clid), "msg=" + m] by {
      if ' ' !in m {
        FormatIntPlain(clid);
        PokeLiterals();
        NoCharInToken("clid", FormatInt(clid), ' ');
        NoCharInToken("msg", m, ' ');
        PokeShape(FormatInt(clid), m);
        SplitThree("clientpoke", "clid=" + FormatInt(clid), "msg=" + m, ' ');
      }
    }
    r
  }

  lemma PokeLiterals()
    ensures ' ' !in "clientpoke" && ' ' !in "clid" && ' ' !in "msg"
    ensures "clid" + "=" == "clid=" && "msg" + "=" == "msg="
  {
  }

  lemma PokeShape(x: string, y: string)
    ensures "clientpoke clid=" + x + " msg=" + y == "clientpoke" + [' '] + ("clid=" + x) + [' '] + ("msg=" + y)
  {
  }

  /** The connection after one poke per id, in order; the replies are ignored. */
  function PokeAll(w: Wire, ids: seq<int>, m: string): (r: Wire)
    requires WireValid(w)
    ensures WireValid(r) && r.open == w.open
    decreases |ids|
  {
    if |ids| == 0 then w
    else Send(PokeAll(w, ids[..|ids| - 1], m), PokeCommand(ids[|ids| - 1], m)).1
  }

  /** The session ids of the users, user after user. */
  function SessionsOf(users: seq<User>): seq<int>
    decreases |users|
  {
    if |users| == 0 then []
    else SessionsOf(users[..|users| - 1]) + users[|users| - 1].activeSessionIds
  }

  /**
   * ServerGroupPoke (servergroups.go:128-144): the message is escaped once;
   * an error from the member lookup is returned as is; otherwise every
   * session of every member is poked and the result is no error.
   */
  function GroupPoke(w: Wire, sgid: int, msg: string): (r: (Option<NumError>, Wire))
    requires MembersSafe(w, sgid)
    ensures WireValid(r.1)
  {
    var (users, err, w1) := Members(w, sgid);
    if err.Some? then (err, w1)
    else (None, PokeAll(w1, SessionsOf(users.value), Encode(msg)))
  }

  method ServerGroupPoke(c: Conn, sgid: int, msg: string) returns (err: Option<NumError>)
    requires c.Valid() && MembersSafe(c.State(), sgid)
    modifies c
    ensures c.Valid() && (err, c.State()) == GroupPoke(old(c.State()), sgid, msg)
  {
    var m := Encode(msg);
    var users, e := ServerGroupMembers(c, sgid);
    if e.Some? {
      return e;
    }
    PokeUsers(c, users.value, m);
    err := None;
  }

  /** The outer loop of ServerGroupPoke (servergroups.go:137-141): the sessions of each member in turn. */
  method PokeUsers(c: Conn, us: seq<User>, m: string)
    requires c.Valid()
    modifies c
    ensures c.Valid() && c.State() == PokeAll(old(c.State()), SessionsOf(us), m)
  {
    ghost var w := c.State();
    var j := 0;
    assert us[..0] == [];
    while j < |us|
      invariant 0 <= j <= |us| && c.Valid()
      invariant c.State() == PokeAll(w, SessionsOf(us[..j]), m)
      decreases |us| - j
    {
      PokeSessions(c, us[j].activeSessionIds, m);
      PokeAllAppend(w, SessionsOf(us[..j]), us[j].activeSessionIds, m);
      assert us[..j + 1][..j] == us[..j];
      j := j + 1;
    }
    assert us[..j] == us;
  }

  /** The inner loop of ServerGroupPoke: one poke per session id, replies ignored. */
  method PokeSessions(c: Conn, ids: seq<int>, m: string)
    requires c.Valid()
    modifies c
    ensures c.Valid() && c.State() == PokeAll(old(c.State()), ids, m)
  {
    ghost var w := c.State();
    var ii := 0;
    assert ids[..0] == [];
    while ii < |ids|
      invariant 0 <= ii <= |ids| && c.Valid()
      invariant c.State() == PokeAll(w, ids[..ii], m)
      decreases |ids| - ii
    {
      assert ids[..ii + 1] == ids[..ii] + [ids[ii]];
      PokeAllSnoc(w, ids[..ii], ids[ii], m);
      var _ := c.Exec(PokeCommand(ids[ii], m));
      ii := ii + 1;
    }
    assert ids[..ii] == ids;
  }

  // ---------------------------------------------------------------- lemmas

  lemma PokeAllSnoc(w: Wire, ids: seq<int>, x: int, m: string)
    requires WireValid(w)
    ensures PokeAll(w, ids + [x], m) == Send(PokeAll(w, ids, m), PokeCommand(x, m)).1
  {
    assert (ids + [x])[..|ids|] == ids;
  }

  /** Poking two lists of ids in turn is poking their concatenation. */
  lemma {:induction false} PokeAllAppend(w: Wire, a: seq<int>, b: seq<int>, m: string)
    requires WireValid(w)
    ensures PokeAll(PokeAll(w, a, m), b, m) == PokeAll(w, a + b, m)
    decreases |b|
  {
    if |b| == 0 {
      assert a + b == a;
    } else {
      var init, x := b[..|b| - 1], b[|b| - 1];
      assert b == init + [x];
      PokeAllSnoc(PokeAll(w, a, m), init, x, m);
      PokeAllAppend(w, a, init, m);
      assert a + b == (a + init) + [x];
      PokeAllSnoc(w, a + init, x, m);
    }
  }

  /** A step of the member loop on a record that is not a number: the loop ends with its error. */
  lemma CollectStops(w: Wire, parts: seq<string>, sessions: map<int, seq<int>>, i: nat, users: seq<User>, w0: Wire)
    requires i < |parts| && Resumes(w0, parts, sessions, i, users, w)
    requires MemberId(parts[i]).Err?
    ensures Collect(w0, parts, sessions) == (users, Some(MemberId(parts[i]).error), w)
  {
    var rest := parts[i..];
    assert rest[0] == parts[i];
    CollectHead(w, rest, sessions);
    assert Collect(w, rest, sessions) == ([], Some(MemberId(parts[i]).error), w);
    assert users + [] == users;
  }

  /** A step of the member loop on a number: its user is looked up and appended. */
  lemma CollectStep(w: Wire, parts: seq<string>, sessions: map<int, seq<int>>, i: nat, users: seq<User>, w0: Wire)
    requires i < |parts| && Resumes(w0, parts, sessions, i, users, w)
    requires MemberId(parts[i]).Ok?
    ensures FindUserSafe(w, MemberId(parts[i]).value)
    ensures var id := MemberId(parts[i]).value; var u := FindUser(w, id).0; var w1 := FindUser(w, id).1;
      u.Some? && u.value.cldbid == id &&
      Resumes(w0, parts, sessions, i + 1, users + [u.value.(activeSessionIds := Lookup(sessions, id))], w1)
  {
    var rest := parts[i..];
    assert rest[0] == parts[i] && rest[1..] == parts[i + 1..];
    CollectHead(w, rest, sessions);
    var id := MemberId(parts[i]).value;
    var u, w1 := FindUser(w, id).0, FindUser(w, id).1;
    var user := u.value.(activeSessionIds := Lookup(sessions, id));
    var tail := Collect(w1, parts[i + 1..], sessions);
    assert Collect(w, rest, sessions) == ([user] + tail.0, tail.1, tail.2);
    AppendAssoc(users, [user], tail.0);
  }

  /** Collect on a non-empty list, by its first record. */
  lemma CollectHead(w: Wire, parts: seq<string>, sessions: map<int, seq<int>>)
    requires |parts| > 0 && CollectSafe(w, parts)
    ensures MemberId(parts[0]).Err? ==> Collect(w, parts, sessions) == ([], Some(MemberId(parts[0]).error), w)
    ensures MemberId(parts[0]).Ok? ==>
      var id := MemberId(parts[0]).value;
      var (u, w1) := FindUser(w, id);
      FindUserSafe(w, id) && u.Some? && u.value.cldbid == id && CollectSafe(w1, parts[1..]) &&
      Collect(w, parts, sessions) == ([u.value.(activeSessionIds := Lookup(sessions, id))] + Collect(w1, parts[1..], sessions).0,
        Collect(w1, parts[1..], sessions).1, Collect(w1, parts[1..], sessions).2)
  {
  }

  /**
   * Each user the member loop returns belongs to the record at its
   * position, and carries exactly the active sessions of its database id.
   */
  lemma {:induction false} CollectUsers(w: Wire, parts: seq<string>, sessions: map<int, seq<int>>)
    requires CollectSafe(w, parts)
    ensures var users := Collect(w, parts, sessions).0;
      forall i | 0 <= i < |users| :: MemberId(parts[i]) == Ok(users[i].cldbid) && users[i].activeSessionIds == Lookup(sessions, users[i].cldbid)
    decreases |parts|
  {
    if |parts| > 0 && MemberId(parts[0]).Ok? {
      CollectHead(w, parts, sessions);
      var id := MemberId(parts[0]).value;
      var w1 := FindUser(w, id).1;
      CollectUsers(w1, parts[1..], sessions);
      var u := FindUser(w, id).0.value.(activeSessionIds := Lookup(sessions, id));
      UsersMatchCons(parts, u, Collect(w1, parts[1..], sessions).0, sessions);
    }
  }

  lemma UsersMatchCons(parts: seq<string>, u: User, rest: seq<User>, sessions: map<int, seq<int>>)
    requires |parts| > 0 && MemberId(parts[0]) == Ok(u.cldbid) && u.activeSessionIds == Lookup(sessions, u.cldbid)
    requires |rest| < |parts|
    requires forall i | 0 <= i < |rest| :: MemberId(parts[1..][i]) == Ok(rest[i].cldbid) && rest[i].activeSessionIds == Lookup(sessions, rest[i].cldbid)
    ensures var users := [u] + rest;
      forall i | 0 <= i < |users| :: MemberId(parts[i]) == Ok(users[i].cldbid) && users[i].activeSessionIds == Lookup(sessions, users[i].cldbid)
  {
    var users := [u] + rest;
    forall i | 0 < i < |users|
      ensures MemberId(parts[i]) == Ok(users[i].cldbid) && users[i].activeSessionIds == Lookup(sessions, users[i].cldbid)
    {
      assert users[i] == rest[i - 1] && parts[i] == parts[1..][i - 1];
    }
  }

  /** A member record as the server writes it, `cldbid=<id>`, gives back the id. */
  lemma MemberRecord(n: int)
    requires IsInt64(n)
    ensures MemberId("cldbid=" + FormatInt(n)) == Ok(n)
  {
    var digits := FormatInt(n);
    FormatIntPlain(n);
    forall i | 0 <= i < |digits| ensures !MatchAt(digits, i, "cldbid=") {
      if i + 7 <= |digits| {
        assert digits[i..i + 7][0] == digits[i];
      }
    }
    ReplaceAllPrefix("cldbid=", digits);
    ParseFormat(n);
  }

  /** A group record of well-formed fields parses to the group its first three fields describe. */
  lemma ParseGroupRecord(fields: seq<(string, string)>, g: ServerGroup)
    requires WellFormedFields(fields) && |fields| >= 3
    requires ParseInt(fields[0].1) == Ok(g.id) && Decode(fields[1].1) == g.name
    requires ParseInt(fields[2].1) == Ok(g.groupType)
    ensures GroupRecordSafe(Record(fields)) && ParseGroup(Record(fields)) == Ok(g)
  {
    RecordWords(fields);
  }

  /** A group written out as the server lists it, name escaped, reads back as that group. */
  lemma GroupRoundTrip(id: int, name: string, groupType: int)
    requires IsInt64(id) && IsInt64(groupType) && Plain(name)
    ensures var fields := [("sgid", FormatInt(id)), ("name", Encode(name)), ("type", FormatInt(groupType))];
      GroupRecordSafe(Record(fields)) && ParseGroup(Record(fields)) == Ok(ServerGroup(id, name, groupType))
  {
    var fields := [("sgid", FormatInt(id)), ("name", Encode(name)), ("type", FormatInt(groupType))];
    GroupFieldsWellFormed(id, name, groupType);
    ParseFormat(id);
    ParseFormat(groupType);
    DecodeEncode(name);
    ParseGroupRecord(fields, ServerGroup(id, name, groupType));
  }

  lemma GroupFieldsWellFormed(id: int, name: string, groupType: int)
    requires Plain(name)
    ensures WellFormedFields([("sgid", FormatInt(id)), ("name", Encode(name)), ("type", FormatInt(groupType))])
  {
    FormatIntBare(id);
    FormatIntBare(groupType);
    EncodedPlain(name);
    GroupKeys();
  }

  lemma GroupKeys()
    ensures |"sgid"| > 0 && Bare("sgid") && |"name"| > 0 && Bare("name") && |"type"| > 0 && Bare("type")
  {
    assert KeyChars("sgid") && KeyChars("name") && KeyChars("type");
    KeyBare("sgid");
    KeyBare("name");
    KeyBare("type");
  }


  /** `key=<n>` is one word whose value reads back as `n`. */
  lemma IntToken(key: string, n: int)
    requires IsInt64(n) && KeyChars(key)
    ensures ' ' !in key + "=" + FormatInt(n)
    ensures '=' in key + "=" + FormatInt(n) && ParseInt(GetVal(key + "=" + FormatInt(n))) == Ok(n)
  {
    FormatIntPlain(n);
    assert ' ' !in FormatInt(n) && '=' !in FormatInt(n);
    KeyBare(key);
    assert '=' !in key && ' ' !in key;
    NoCharInToken(key, FormatInt(n), ' ');
    GetValOfToken(key, FormatInt(n));
    ParseFormat(n);
  }

  /**
   * The client commands carry the group and the client as `sgid=` and
   * `cldbid=`, the server reads both back, and the verb stays a word of its own.
   */
  lemma ClientCommandWords(verb: string, sgid: int, cldbid: int)
    requires KeyChars(verb) && IsInt64(sgid) && IsInt64(cldbid)
    ensures Split(ClientCommand(verb, sgid, cldbid), " ") == [verb, "sgid=" + FormatInt(sgid), "cldbid=" + FormatInt(cldbid)]
    ensures ParseInt(GetVal("sgid=" + FormatInt(sgid))) == Ok(sgid)
    ensures ParseInt(GetVal("cldbid=" + FormatInt(cldbid))) == Ok(cldbid)
  {
    var a, b := "sgid=" + FormatInt(sgid), "cldbid=" + FormatInt(cldbid);
    ClientKeys();
    IntToken("sgid", sgid);
    IntToken("cldbid", cldbid);
    KeyBare(verb);
    assert ' ' !in verb;
    ClientCommandShape(verb, FormatInt(sgid), FormatInt(cldbid));
    SplitThree(verb, a, b, ' ');
  }

  lemma ClientKeys()
    ensures "sgid=" == "sgid" + "=" && "cldbid=" == "cldbid" + "=" && KeyChars("sgid") && KeyChars("cldbid")
  {
  }

  lemma ClientCommandShape(verb: string, x: string, y: string)
    ensures verb + " sgid=" + x + " cldbid=" + y == verb + [' '] + ("sgid=" + x) + [' '] + ("cldbid=" + y)
  {
    assert " sgid=" == [' '] + "sgid=";
    assert " cldbid=" == [' '] + "cldbid=";
  }

  /** The frames of one poke per id, in order. */
  function PokeFrames(ids: seq<int>, m: string): (r: seq<string>)
    ensures |r| == |ids|
  {
    seq(|ids|, i requires 0 <= i < |ids| => Frame(PokeCommand(ids[i], m)))
  }

  /** On a connection whose writes do not fail, the pokes are written exactly, one per id, in order. */
  lemma {:induction false} PokeAllSends(w: Wire, ids: seq<int>, m: string)
    requires WireValid(w) && Writable(w)
    ensures PokeAll(w, ids, m).sent == w.sent + PokeFrames(ids, m) && Writable(PokeAll(w, ids, m))
    decreases |ids|
  {
    if |ids| > 0 {
      var init, x := ids[..|ids| - 1], ids[|ids| - 1];
      PokeAllSends(w, init, m);
      var w1 := PokeAll(w, init, m);
      assert PokeAll(w, ids, m) == Send(w1, PokeCommand(x, m)).1;
      SendWrites(w1, PokeCommand(x, m));
      PokeFramesSnoc(ids, m);
    }
  }

  lemma PokeFramesSnoc(ids: seq<int>, m: string)
    requires |ids| > 0
    ensures PokeFrames(ids, m) == PokeFrames(ids[..|ids| - 1], m) + [Frame(PokeCommand(ids[|ids| - 1], m))]
  {
  }

  /**
   * When the member lookup succeeds and the connection's writes do not
   * fail, ServerGroupPoke writes one poke, with the message escaped, to
   * every session of every member, in member order, and nothing else.
   */
  lemma GroupPokeSends(w: Wire, sgid: int, msg: string)
    requires MembersSafe(w, sgid) && Members(w, sgid).1.None? && Writable(Members(w, sgid).2)
    ensures GroupPoke(w, sgid, msg).0.None?
    ensures GroupPoke(w, sgid, msg).1.sent == Members(w, sgid).2.sent + PokeFrames(SessionsOf(Members(w, sgid).0.value), Encode(msg))
  {
    PokeAllSends(Members(w, sgid).2, SessionsOf(Members(w, sgid).0.value), Encode(msg));
  }

  /** The sessions poked are those the member list carries, so each one is a session of its user's database id. */
  lemma {:induction false} SessionsOfUsers(users: seq<User>, sessions: map<int, seq<int>>)
    requires forall i | 0 <= i < |users| :: users[i].activeSessionIds == Lookup(sessions, users[i].cldbid)
    ensures forall x | x in SessionsOf(users) :: exists i :: 0 <= i < |users| && x in Lookup(sessions, users[i].cldbid)
    decreases |users|
  {
    if |users| > 0 {
      var init := users[..|users| - 1];
      SessionsOfUsers(init, sessions);
      forall x | x in SessionsOf(users) ensures exists i :: 0 <= i < |users| && x in Lookup(sessions, users[i].cldbid) {
        if x in SessionsOf(init) {
          var i :| 0 <= i < |init| && x in Lookup(sessions, init[i].cldbid);
          assert users[i] == init[i];
        } else {
          assert x in users[|users| - 1].activeSessionIds;
        }
      }
    }
  }
}
