/**
 * The virtual-server commands of server.go. Each command method runs on a
 * Conn and is proved against a function of the connection state; the error
 * results of the source are left out because Exec never reports one.
 */
module Server {
  import opened Wrappers
  import opened Strs
  import opened Strconv
  import opened Codec
  import opened Utils
  import opened Ts3
  import opened Records

  function UseCommand(sid: int): string { "use " + FormatInt(sid) }
  function GlobalMessageCommand(msg: string): string { "gm msg=" + Encode(msg) }
  function StartCommand(sid: int): string { "serverstart sid=" + FormatInt(sid) }
  function StopCommand(sid: int): string { "serverstop sid=" + FormatInt(sid) }

  /** Use (server.go:26-34): selects virtual server `sid`. */
  method Use(c: Conn, sid: int) returns (r: QueryResponse)
    requires c.Valid() && QuerySafe(c.State(), UseCommand(sid))
    modifies c
    ensures c.Valid()
    ensures (r, c.State()) == Query(old(c.State()), UseCommand(sid))
  {
    r := Command(c, UseCommand(sid));
  }

  /** GlobalMessage (server.go:36-43): the message goes out escaped. */
  method GlobalMessage(c: Conn, msg: string) returns (r: QueryResponse)
    requires c.Valid() && QuerySafe(c.State(), GlobalMessageCommand(msg))
    modifies c
    ensures c.Valid()
    ensures (r, c.State()) == Query(old(c.State()), GlobalMessageCommand(msg))
  {
    r := Command(c, GlobalMessageCommand(msg));
  }

  /** Start (server.go:45-52). */
  method Start(c: Conn, sid: int) returns (r: QueryResponse)
    requires c.Valid() && QuerySafe(c.State(), StartCommand(sid))
    modifies c
    ensures c.Valid()
    ensures (r, c.State()) == Query(old(c.State()), StartCommand(sid))
  {
    r := Command(c, StartCommand(sid));
  }

  /** Stop (server.go:54-61): the only one of the four that drops Exec's error. */
  method Stop(c: Conn, sid: int) returns (r: QueryResponse)
    requires c.Valid() && QuerySafe(c.State(), StopCommand(sid))
    modifies c
    ensures c.Valid()
    ensures (r, c.State()) == Query(old(c.State()), StopCommand(sid))
  {
    r := Command(c, StopCommand(sid));
  }

  // -------------------------------------------------------------- serverlist

  ghost predicate ListSafe(w: Wire) {
    WireValid(w) && SafeUntilFailure(ParseVirtualServer, Split(Send(w, "serverlist").0, "|"))
  }

  /**
   * List (server.go:63-84): the whole reply, status line and padding
   * included, is split on `|`, and the records are parsed in order up to
   * the first failure; the servers parsed before it are returned with it.
   */
  function ListServers(w: Wire): (r: (seq<VirtualServer>, Option<NumError>))
    requires ListSafe(w)
    ensures |r.0| <= |Split(Send(w, "serverlist").0, "|")|
    ensures r.1.None? <==> |r.0| == |Split(Send(w, "serverlist").0, "|")|
  {
    ParseEach(ParseVirtualServer, Split(Send(w, "serverlist").0, "|"))
  }

  method List(c: Conn) returns (servers: seq<VirtualServer>, err: Option<NumError>)
    requires c.Valid() && ListSafe(c.State())
    modifies c
    ensures c.Valid() && c.State() == Send(old(c.State()), "serverlist").1
    ensures (servers, err) == ListServers(old(c.State()))
  {
    var res := c.Exec("serverlist");
    servers, err := ParseLoop(ParseVirtualServer, Split(res, "|"));
  }

  // ---------------------------------------------------------------- lemmas

  /** `use` carries the id as its one argument, and the server reads it back. */
  lemma UseCommandWords(sid: int)
    requires IsInt64(sid)
    ensures Split(UseCommand(sid), " ") == ["use", FormatInt(sid)]
    ensures ParseInt(Split(UseCommand(sid), " ")[1]) == Ok(sid)
  {
    FormatIntPlain(sid);
    assert ' ' !in FormatInt(sid);
    assert UseCommand(sid) == Join(["use", FormatInt(sid)], " ");
    SplitJoinChar(["use", FormatInt(sid)], ' ');
    ParseFormat(sid);
  }

  /** `serverstart` and `serverstop` carry `sid=<id>` as their one argument. */
  lemma StartStopCommandWords(sid: int)
    requires IsInt64(sid)
    ensures Split(StartCommand(sid), " ") == ["serverstart", "sid" + "=" + FormatInt(sid)]
    ensures Split(StopCommand(sid), " ") == ["serverstop", "sid" + "=" + FormatInt(sid)]
    ensures ParseInt(GetVal("sid" + "=" + FormatInt(sid))) == Ok(sid)
  {
    var arg := "sid" + "=" + FormatInt(sid);
    FormatIntPlain(sid);
    assert ' ' !in FormatInt(sid) && '=' !in FormatInt(sid);
    NoCharInToken("sid", FormatInt(sid), ' ');
    assert StartCommand(sid) == Join(["serverstart", arg], " ");
    assert StopCommand(sid) == Join(["serverstop", arg], " ");
    SplitJoinChar(["serverstart", arg], ' ');
    SplitJoinChar(["serverstop", arg], ' ');
    GetValOfToken("sid", FormatInt(sid));
    ParseFormat(sid);
  }

  /** A global message travels as one word whose value decodes to the message, spaces and all. */
  lemma GlobalMessageWords(msg: string)
    ensures Split(GlobalMessageCommand(msg), " ") == ["gm", "msg=" + Encode(msg)]
    ensures Decode(Split(GlobalMessageCommand(msg), " ")[1][4..]) == msg
  {
    GlobalMessageSplit(msg);
    var arg := "msg=" + Encode(msg);
    assert arg[4..] == Encode(msg);
    DecodeEncode(msg);
  }

  lemma GlobalMessageSplit(msg: string)
    ensures Split(GlobalMessageCommand(msg), " ") == ["gm", "msg=" + Encode(msg)]
  {
    var arg := "msg=" + Encode(msg);
    EncodeNoRaw(msg, ' ');
    MessageLiterals();
    NoCharInToken("msg", Encode(msg), ' ');
    assert GlobalMessageCommand(msg) == "gm" + [' '] + arg;
    SplitTwo("gm", arg, ' ');
  }


  lemma MessageLiterals()
    ensures "gm msg=" == "gm" + [' '] + "msg=" && "msg" + "=" == "msg="
    ensures ' ' !in "gm" && ' ' !in "msg" && |"msg="| == 4
  {
  }

  /**
   * The commands of this file never succeed on a reply that is one status
   * line: Exec's padded buffer glues the NULs to the message.
   */
  lemma CommandOnStatusReply(w: Wire, cmd: string, id: int, msg: string)
    requires WireValid(w) && w.open && |w.pending| > 0
    requires IsInt64(id) && Plain(msg) && |StatusLine(FormatInt(id), msg) + "\n\r"| < Bytes
    requires w.pending[0] == Received(StatusLine(FormatInt(id), msg) + "\n\r")
    ensures QuerySafe(w, cmd)
    ensures Query(w, cmd).0.id == id && !Query(w, cmd).0.success
  {
    PaddedStatusNeverSucceeds(id, msg);
  }
}
