/**
 * The telnet transport of ts3.go. The socket is replaced by a script: the
 * connection holds the outcomes its coming reads and writes will have, in
 * order, and records every command frame it writes. A pure function, Send,
 * says what one Exec does to that state; the Conn methods are proved
 * against it, and every operation of the other files is specified over it.
 */
module Ts3 {
  import opened Wrappers
  import opened Strs
  import opened Strconv
  import opened Codec
  import opened Utils

  /** The ServerQuery port dialled when the address names none (ts3.go:13). */
  const DefaultPort: int := 10011
  /** The size of the buffer every reply is read into (ts3.go:14). */
  const Bytes: nat := 64 * 1024

  /**
   * The address Connect dials (ts3.go:42-45): the default port is appended
   * when the address holds no `:`. The result of TrimSpace is discarded, so
   * surrounding white space stays in the address.
   */
  function DialAddress(address: string): (r: string)
    ensures ':' in r
    ensures |r| >= |address| && r[..|address|] == address
    ensures r == address <==> ':' in address
  {
    if ':' in address then address
    else
      var r := address + ":" + FormatInt(DefaultPort);
      assert r[|address|] == ':';
      r
  }

  /** The text Exec writes for a command (ts3.go:103): the command and one newline. */
  function Frame(cmd: string): (r: string)
    ensures |r| == |cmd| + 1 && r[..|cmd|] == cmd && r[|cmd|] == '\n'
  {
    cmd + "\n"
  }

  /** `n` NUL characters: the untouched part of a freshly made buffer. */
  function Nuls(n: nat): (r: string)
    ensures |r| == n && forall i | 0 <= i < n :: r[i] == '\0'
  {
    seq(n, _ => '\0')
  }

  /**
   * The string Exec returns after reading `data` (ts3.go:100, 113, 120): the
   * whole 64 KiB buffer, the bytes read followed by the NULs nobody wrote.
   */
  function FillBuffer(data: string): (r: string)
    requires |data| <= Bytes
    ensures |r| == Bytes
    ensures r[..|data|] == data && forall i | |data| <= i < Bytes :: r[i] == '\0'
  {
    data + Nuls(Bytes - |data|)
  }

  /** What the socket does for one Exec: the write fails, the read fails, or a chunk arrives. */
  datatype Reply = WriteFails | ReadFails | Received(data: string)

  /**
   * The state of a connection: whether it is open, the outcomes of the
   * coming Execs, and the frames written so far.
   */
  datatype Wire = Wire(open: bool, pending: seq<Reply>, sent: seq<string>)

  /** One read never delivers more than the buffer holds. */
  predicate WireValid(w: Wire) {
    forall i | 0 <= i < |w.pending| :: w.pending[i].Received? ==> |w.pending[i].data| <= Bytes
  }

  /**
   * Exec (ts3.go:98-121) as a function of the connection state. A closed
   * connection fails to write; an open one with no scripted outcome left
   * fails to read. A failed write or read yields "" and no error; a read
   * yields the whole buffer. The frame counts as written unless the write failed.
   */
  function Send(w: Wire, cmd: string): (r: (string, Wire))
    requires WireValid(w)
    ensures WireValid(r.1) && r.1.open == w.open
    ensures r.0 == "" || |r.0| == Bytes
    ensures r.1.sent == w.sent || r.1.sent == w.sent + [Frame(cmd)]
    ensures !w.open ==> r == ("", w)
    ensures w.open && |w.pending| > 0 ==> r.1.pending == w.pending[1..]
  {
    if !w.open then ("", w)
    else if |w.pending| == 0 then ("", w.(sent := w.sent + [Frame(cmd)]))
    else
      var rest := w.pending[1..];
      assert WireValid(w.(pending := rest)) by {
        forall i | 0 <= i < |rest| ensures rest[i].Received? ==> |rest[i].data| <= Bytes {
          assert rest[i] == w.pending[i + 1];
        }
      }
      match w.pending[0]
      case WriteFails => ("", w.(pending := rest))
      case ReadFails => ("", w.(pending := rest, sent := w.sent + [Frame(cmd)]))
      case Received(data) => (FillBuffer(data), w.(pending := rest, sent := w.sent + [Frame(cmd)]))
  }

  /** The command Login sends (ts3.go:27). */
  function LoginCommand(user: string, passwd: string): string {
    "login " + Encode(user) + " " + Encode(passwd)
  }

  /** Why Connect fails: the dial did not succeed. */
  datatype ConnectError = DialFailed(address: string)

  /** Conn (ts3.go:21-23), with the socket replaced by the scripted state of Wire. */
  class Conn {
    var open: bool
    var pending: seq<Reply>
    var sent: seq<string>

    function State(): Wire
      reads this
    {
      Wire(open, pending, sent)
    }

    predicate Valid()
      reads this
    {
      WireValid(State())
    }

    constructor(script: seq<Reply>)
      requires WireValid(Wire(true, script, []))
      ensures Valid() && State() == Wire(true, script, [])
    {
      open := true;
      pending := script;
      sent := [];
    }

    /** Exec (ts3.go:98-121). */
    method Exec(cmd: string) returns (res: string)
      requires Valid()
      modifies this
      ensures Valid()
      ensures (res, State()) == Send(old(State()), cmd)
    {
      if !open {
        res := "";
        return;
      }
      sent := sent + [Frame(cmd)];
      if |pending| == 0 {
        res := "";
        return;
      }
      var outcome := pending[0];
      pending := pending[1..];
      match outcome
      case WriteFails =>
        sent := sent[..|sent| - 1];
        res := "";
      case ReadFails =>
        res := "";
      case Received(data) =>
        res := FillBuffer(data);
    }

    /** Login (ts3.go:26-29): the error it returns is Exec's, which is always nil. */
    method Login(user: string, passwd: string)
      requires Valid()
      modifies this
      ensures Valid()
      ensures State() == Send(old(State()), LoginCommand(user, passwd)).1
    {
      var _ := Exec(LoginCommand(user, passwd));
    }

    /** Disconnect (ts3.go:74-82): sends `quit`, then closes whatever quit returned. */
    method Disconnect()
      requires Valid()
      modifies this
      ensures Valid()
      ensures State() == Send(old(State()), "quit").1.(open := false)
    {
      var _ := Exec("quit");
      open := false;
    }
  }

  /**
   * Connect (ts3.go:32-71): dials DialAddress(address); `reachable` stands
   * for the network. The greeting read after the dial is discarded, so the
   * script starts with the first command's outcome.
   */
  method Connect(address: string, reachable: string -> bool, script: seq<Reply>) returns (c: Conn?, err: Option<ConnectError>)
    requires WireValid(Wire(true, script, []))
    ensures reachable(DialAddress(address)) ==> err == None && c != null && fresh(c) && c.Valid() && c.State() == Wire(true, script, [])
    ensures !reachable(DialAddress(address)) ==> err == Some(DialFailed(DialAddress(address))) && c == null
  {
    var a := DialAddress(address);
    if !reachable(a) {
      return null, Some(DialFailed(a));
    }
    c := new Conn(script);
    err := None;
  }

  /** A command whose whole reply goes to ParseQueryResponse: the reply must carry a status line. */
  predicate QuerySafe(w: Wire, cmd: string) {
    WireValid(w) && StatusSafe(Send(w, cmd).0)
  }

  /** Sending a command and parsing the whole reply as its status (server.go:27-33, servergroups.go:66-73 and alike). */
  function Query(w: Wire, cmd: string): (r: (QueryResponse, Wire))
    requires QuerySafe(w, cmd)
    ensures r.1 == Send(w, cmd).1
    ensures r.0.success ==> r.0.msg == "ok"
  {
    (ParseQueryResponse(Send(w, cmd).0), Send(w, cmd).1)
  }

  method Command(c: Conn, cmd: string) returns (r: QueryResponse)
    requires c.Valid() && QuerySafe(c.State(), cmd)
    modifies c
    ensures c.Valid()
    ensures (r, c.State()) == Query(old(c.State()), cmd)
  {
    var res := c.Exec(cmd);
    r := ParseQueryResponse(res);
  }

  /** An open connection none of whose coming Execs fails to write. */
  predicate Writable(w: Wire) {
    w.open && forall i | 0 <= i < |w.pending| :: !w.pending[i].WriteFails?
  }

  // ---------------------------------------------------------------- lemmas

  /** On a writable connection every Exec writes its frame, and the connection stays writable. */
  lemma SendWrites(w: Wire, cmd: string)
    requires WireValid(w) && Writable(w)
    ensures Send(w, cmd).1.sent == w.sent + [Frame(cmd)] && Writable(Send(w, cmd).1)
  {
    if |w.pending| > 0 {
      var rest := w.pending[1..];
      assert !w.pending[0].WriteFails?;
      forall i | 0 <= i < |rest| ensures !rest[i].WriteFails? {
        assert rest[i] == w.pending[i + 1];
      }
    }
  }

  /** The default port is written out as 10011. */
  lemma DefaultPortText()
    ensures FormatInt(DefaultPort) == "10011"
  {
    assert NatDigits(10011) == NatDigits(1001) + "1";
    assert NatDigits(1001) == NatDigits(100) + "1";
    assert NatDigits(100) == NatDigits(10) + "0";
    assert NatDigits(10) == NatDigits(1) + "0";
  }

  /** Dialling an address twice adds the port once. */
  lemma DialAddressIdempotent(address: string)
    ensures DialAddress(DialAddress(address)) == DialAddress(address)
  {
  }

  /** An address without a port gets the ServerQuery default. */
  lemma DialAddressDefault(address: string)
    requires ':' !in address
    ensures DialAddress(address) == address + ":10011"
  {
    DefaultPortText();
  }

  /** Once closed, a connection writes nothing and every Exec yields "". */
  lemma ClosedSendsNothing(w: Wire, cmd: string)
    requires WireValid(w) && !w.open
    ensures Send(w, cmd) == ("", w)
  {
  }

  /**
   * The login command has exactly three space-separated words, and decoding
   * the second and third gives the user name and password back, whatever
   * spaces or bars they hold.
   */
  lemma LoginCommandWords(user: string, passwd: string)
    ensures Split(LoginCommand(user, passwd), " ") == ["login", Encode(user), Encode(passwd)]
    ensures Decode(Encode(user)) == user && Decode(Encode(passwd)) == passwd
  {
    EncodeNoRaw(user, ' ');
    EncodeNoRaw(passwd, ' ');
    assert LoginCommand(user, passwd) == "login" + " " + Encode(user) + " " + Encode(passwd);
    JoinThree("login", Encode(user), Encode(passwd), " ");
    SplitJoinChar(["login", Encode(user), Encode(passwd)], ' ');
    DecodeEncode(user);
    DecodeEncode(passwd);
  }

  /**
   * Exec hands the callers the whole buffer, so the status line a server
   * sends as the complete reply to a command reaches ParseQueryResponse with
   * its line break and the NUL padding glued to the message: the id is read
   * correctly, but success is false even for "ok".
   */
  lemma PaddedStatusNeverSucceeds(id: int, msg: string)
    requires IsInt64(id) && Plain(msg)
    requires |StatusLine(FormatInt(id), msg) + "\n\r"| < Bytes
    ensures StatusSafe(FillBuffer(StatusLine(FormatInt(id), msg) + "\n\r"))
    ensures ParseQueryResponse(FillBuffer(StatusLine(FormatInt(id), msg) + "\n\r")).id == id
    ensures !ParseQueryResponse(FillBuffer(StatusLine(FormatInt(id), msg) + "\n\r")).success
  {
    var line := StatusLine(FormatInt(id), msg);
    var idText, enc := FormatInt(id), Encode(msg);
    var pad := "\n\r" + Nuls(Bytes - |line + "\n\r"|);
    assert FillBuffer(line + "\n\r") == line + pad;
    PaddedShape(idText, enc, pad);
    FormatIntPlain(id);
    assert ' ' !in idText && '=' !in idText;
    EncodedPlain(msg);
    PadTail(enc, Bytes - |line + "\n\r"|);
    StatusTokens(idText, enc + pad);
    ParseFormat(id);
  }

  /** The message with the line break and the padding glued on holds no space or `=` and ends in a NUL. */
  lemma PadTail(enc: string, n: nat)
    requires ' ' !in enc && '=' !in enc && n > 0
    ensures var t := enc + ("\n\r" + Nuls(n));
      ' ' !in t && '=' !in t && |t| > 2 && !IsSpace(t[|t| - 1])
  {
    var t := enc + ("\n\r" + Nuls(n));
    assert t[|t| - 1] == '\0';
    forall i | 0 <= i < |t| ensures t[i] != ' ' && t[i] != '=' {
      if i < |enc| { assert t[i] == enc[i]; }
    }
  }

  /** A status line whose message value runs to a non-blank end parses token by token. */
  lemma StatusTokens(idText: string, tail: string)
    requires ' ' !in idText && '=' !in idText && ' ' !in tail && '=' !in tail
    requires |tail| > 2 && !IsSpace(tail[|tail| - 1])
    ensures StatusSafe("error" + " " + ("id" + "=" + idText) + " " + ("msg" + "=" + tail))
    ensures ParseQueryResponse("error" + " " + ("id" + "=" + idText) + " " + ("msg" + "=" + tail))
         == QueryResponse(match ParseInt(idText) case Ok(v) => v case Err(_) => -1, Decode(tail), false)
  {
    var line := "error" + " " + ("id" + "=" + idText) + " " + ("msg" + "=" + tail);
    var t := ["error", "id" + "=" + idText, "msg" + "=" + tail];
    StatusLineTokens(idText, tail);
    assert Tokens(line) == t;
    assert |t| == 3 && t[1] == "id" + "=" + idText && t[2] == "msg" + "=" + tail;
    StatusKeys();
    ParseStatusTokens(line, "id", idText, "msg", tail);
  }

  /** The status line with text glued after its message is still three words, the last one longer. */
  lemma PaddedShape(idText: string, enc: string, pad: string)
    ensures "error id=" + idText + " msg=" + enc + pad
         == "error" + " " + ("id" + "=" + idText) + " " + ("msg" + "=" + (enc + pad))
  {
    StatusLineShape(idText, enc);
    var head := "error" + " " + ("id" + "=" + idText) + " ";
    assert "error id=" + idText + " msg=" + enc == head + ("msg" + "=" + enc);
    assert head + ("msg" + "=" + enc) + pad == head + ("msg" + "=" + (enc + pad));
  }
}
