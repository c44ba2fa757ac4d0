/**
 * The privilege keys of privilegekey.go: creating one (TokensAdd) with an
 * optional set of custom fields, deleting one (TokensDelete), listing them
 * (Tokenslist), and the two parsers ParsePrivilegeKey and parseCustomSets.
 * The loops of the source are methods proved against functions of the
 * reply; the custom-field text TokensAdd writes is proved to be read back
 * by parseCustomSets into the map it was written from.
 */
module PrivilegeKeys {
  import opened Wrappers
  import opened Strs
  import opened Strconv
  import opened Codec
  import opened Utils
  import opened Ts3
  import opened Records
  import opened Users

  /** PrivilegeKey (privilegekey.go:9-16); the nil map of a bare token is the empty map. */
  datatype PrivilegeKey = PrivilegeKey(channelId: int, description: string, groupId: int,
                                       token: string, keyType: string, customFields: map<string, string>)

  const EmptyKey: PrivilegeKey := PrivilegeKey(0, "", 0, "", "", map[])

  // ------------------------------------------------------ parseCustomSets

  /** An entry `ident=<name>\svalue=<value>` can be read: two halves around `\s`, each with an `=`. */
  predicate EntrySafe(part: string) {
    var p := Split(part, "\\s");
    |p| >= 2 && '=' in p[0] && '=' in p[1]
  }

  /** The name and value of one entry, underscores turned back into spaces (privilegekey.go:133-135). */
  function ReadEntry(part: string): (string, string)
    requires EntrySafe(part)
  {
    var p := Split(part, "\\s");
    (ReplaceAll(GetVal(p[0]), "_", " "), ReplaceAll(GetVal(p[1]), "_", " "))
  }

  /** The entries of a custom-set token: every `token_customset=` removed, the rest split on `\p`. */
  function CustomParts(s: string): seq<string> {
    Split(ReplaceAll(s, "token_customset=", ""), "\\p")
  }

  /** parseCustomSets does not panic on `s`: every entry has its two halves. */
  predicate CustomSetsSafe(s: string) {
    forall i | 0 <= i < |CustomParts(s)| :: EntrySafe(CustomParts(s)[i])
  }

  function ReadEntries(parts: seq<string>): (r: seq<(string, string)>)
    requires forall i | 0 <= i < |parts| :: EntrySafe(parts[i])
    ensures |r| == |parts| && forall i | 0 <= i < |parts| :: r[i] == ReadEntry(parts[i])
  {
    seq(|parts|, i requires 0 <= i < |parts| => ReadEntry(parts[i]))
  }

  /** The map that storing the pairs in order builds: a later pair overwrites an earlier one of the same name. */
  function Assign(pairs: seq<(string, string)>): (r: map<string, string>)
    ensures forall i | 0 <= i < |pairs| :: pairs[i].0 in r
    decreases |pairs|
  {
    if |pairs| == 0 then map[]
    else
      var n := |pairs| - 1;
      Assign(pairs[..n])[pairs[n].0 := pairs[n].1]
  }

  /** What parseCustomSets (privilegekey.go:126-138) returns. */
  function CustomSets(s: string): (r: map<string, string>)
    requires CustomSetsSafe(s)
    ensures forall i | 0 <= i < |CustomParts(s)| :: ReadEntry(CustomParts(s)[i]).0 in r
  {
    Assign(ReadEntries(CustomParts(s)))
  }

  /** parseCustomSets: the loop that stores each entry in a fresh map. */
  method ParseCustomSets(s: string) returns (sets: map<string, string>)
    requires CustomSetsSafe(s)
    ensures sets == CustomSets(s)
  {
    sets := map[];
    var parts := Split(ReplaceAll(s, "token_customset=", ""), "\\p");
    assert parts == CustomParts(s);
    ghost var entries := ReadEntries(parts);
    var i := 0;
    while i < |parts|
      invariant 0 <= i <= |parts|
      invariant sets == Assign(entries[..i])
    {
      var p := Split(parts[i], "\\s");
      var name, value := ReplaceAll(GetVal(p[0]), "_", " "), ReplaceAll(GetVal(p[1]), "_", " ");
      assert entries[i] == (name, value);
      AssignSnoc(entries, i);
      sets := sets[name := value];
      i := i + 1;
    }
    assert entries[..i] == entries;
  }

  lemma AssignSnoc(pairs: seq<(string, string)>, i: int)
    requires 0 <= i < |pairs|
    ensures Assign(pairs[..i + 1]) == Assign(pairs[..i])[pairs[i].0 := pairs[i].1]
  {
    assert pairs[..i + 1][..i] == pairs[..i];
  }

  // ---------------------------------------------------- ParsePrivilegeKey

  /** Tokens 5 and 6 exist, the description token holds an `=`, and the custom set can be read. */
  predicate TailSafe(parts: seq<string>) {
    HasVal(parts, 5) && |parts| > 6 && CustomSetsSafe(parts[6])
  }

  /** ParsePrivilegeKey does not panic on `s`: every token it reaches is there and holds an `=`. */
  predicate KeySafe(s: string) {
    var parts := Split(s, " ");
    '=' in parts[0] &&
    (|parts| > 1 ==>
      HasVal(parts, 1) && HasVal(parts, 2) &&
      (GetVal(parts[1]) == "0" ==> (IntVal(parts, 2).Ok? ==> TailSafe(parts))) &&
      (GetVal(parts[1]) != "0" ==> (IntVal(parts, 2).Ok? ==> HasVal(parts, 3) && (IntVal(parts, 3).Ok? ==> TailSafe(parts)))))
  }

  /**
   * What ParsePrivilegeKey (privilegekey.go:87-124) returns. A record of one
   * token only names the token. Token type "0" is a server-group key whose
   * group is token 2; an unreadable group is reported as an error. Any other
   * type is a channel-group key with the channel in token 2 and the group in
   * token 3; an unreadable number there yields the empty key and no error.
   */
  function PrivilegeKeyOf(s: string): (r: (PrivilegeKey, Option<NumError>))
    requires KeySafe(s)
    ensures r.1.Some? ==> r.0 == EmptyKey
    ensures r.0.keyType == "server" ==> r.0.channelId == 0
  {
    var parts := Split(s, " ");
    var token := GetVal(parts[0]);
    if |parts| <= 1 then (EmptyKey.(token := token), None)
    else if GetVal(parts[1]) == "0" then
      match IntVal(parts, 2)
      case Err(e) => (EmptyKey, Some(e))
      case Ok(g) => (PrivilegeKey(0, Decode(GetVal(parts[5])), g, token, "server", CustomSets(parts[6])), None)
    else
      match IntVal(parts, 2)
      case Err(_) => (EmptyKey, None)
      case Ok(ch) =>
        match IntVal(parts, 3)
        case Err(_) => (EmptyKey, None)
        case Ok(g) => (PrivilegeKey(ch, Decode(GetVal(parts[5])), g, token, "channel", CustomSets(parts[6])), None)
  }

  /** ParsePrivilegeKey: fills in the key field by field. */
  method ParsePrivilegeKey(s: string) returns (key: PrivilegeKey, err: Option<NumError>)
    requires KeySafe(s)
    ensures (key, err) == PrivilegeKeyOf(s)
  {
    var parts := Split(s, " ");
    key := EmptyKey.(token := GetVal(parts[0]));
    err := None;
    if |parts| > 1 {
      if GetVal(parts[1]) == "0" {
        key := key.(keyType := "server");
        var groupId := ParseInt(GetVal(parts[2]));
        if groupId.Err? {
          return EmptyKey, Some(groupId.error);
        }
        key := key.(groupId := groupId.value, channelId := 0);
      } else {
        key := key.(keyType := "channel");
        var channelId := ParseInt(GetVal(parts[2]));
        if channelId.Err? {
          return EmptyKey, None;
        }
        key := key.(channelId := channelId.value);
        var groupId := ParseInt(GetVal(parts[3]));
        if groupId.Err? {
          return EmptyKey, None;
        }
        key := key.(groupId := groupId.value);
      }
      key := key.(description := Decode(GetVal(parts[5])));
      var sets := ParseCustomSets(parts[6]);
      key := key.(customFields := sets);
    }
  }

  /** ParsePrivilegeKey's two results as one, for the record loop of Tokenslist. */
  function KeyResult(s: string): Result<PrivilegeKey, NumError>
    requires KeySafe(s)
  {
    var r := PrivilegeKeyOf(s);
    if r.1.Some? then Err(r.1.value) else Ok(r.0)
  }

  // ------------------------------------------------------------ Tokenslist

  ghost predicate KeyListSafe(w: Wire) {
    WireValid(w) &&
    var lines := Split(Send(w, "privilegekeylist").0, "\n");
    |lines| >= 2 && StatusSafe(lines[1]) && SafeUntilFailure(KeyResult, Split(lines[0], "|"))
  }

  /**
   * Tokenslist (privilegekey.go:66-85): the `|`-separated records of the
   * first line are parsed in order; the status comes from the second line.
   * The first failure discards the keys parsed before it.
   */
  function KeyList(w: Wire): (r: (QueryResponse, Option<seq<PrivilegeKey>>, Option<NumError>))
    requires KeyListSafe(w)
    ensures r.1.Some? <==> r.2.None?
    ensures r.1.Some? ==> |r.1.value| == |Split(Split(Send(w, "privilegekeylist").0, "\n")[0], "|")|
    ensures r.0 == ParseQueryResponse(Split(Send(w, "privilegekeylist").0, "\n")[1])
  {
    var lines := Split(Send(w, "privilegekeylist").0, "\n");
    var parsed := ParseEach(KeyResult, Split(lines[0], "|"));
    var qr := ParseQueryResponse(lines[1]);
    if parsed.1.Some? then (qr, None, parsed.1) else (qr, Some(parsed.0), None)
  }

  method Tokenslist(c: Conn) returns (qr: QueryResponse, keys: Option<seq<PrivilegeKey>>, err: Option<NumError>)
    requires c.Valid() && KeyListSafe(c.State())
    modifies c
    ensures c.Valid() && c.State() == Send(old(c.State()), "privilegekeylist").1
    ensures (qr, keys, err) == KeyList(old(c.State()))
  {
    var res := c.Exec("privilegekeylist");
    var lines := Split(res, "\n");
    var parsed, e := ParseKeys(Split(lines[0], "|"));
    qr := ParseQueryResponse(lines[1]);
    if e.Some? {
      return qr, None, e;
    }
    keys, err := Some(parsed), None;
  }

  /** The loop of Tokenslist (privilegekey.go:76-83). */
  method ParseKeys(recs: seq<string>) returns (keys: seq<PrivilegeKey>, err: Option<NumError>)
    requires SafeUntilFailure(KeyResult, recs)
    ensures (keys, err) == ParseEach(KeyResult, recs)
  {
    keys := [];
    var i := 0;
    assert recs[i..] == recs;
    assert keys + ParseEach(KeyResult, recs).0 == ParseEach(KeyResult, recs).0;
    while i < |recs|
      invariant 0 <= i <= |recs|
      invariant SafeUntilFailure(KeyResult, recs[i..])
      invariant ParseEach(KeyResult, recs) == (keys + ParseEach(KeyResult, recs[i..]).0, ParseEach(KeyResult, recs[i..]).1)
      decreases |recs| - i
    {
      ParseEachStep(KeyResult, recs, i, keys);
      var key, e := ParsePrivilegeKey(recs[i]);
      if e.Some? {
        return keys, e;
      }
      keys := keys + [key];
      i := i + 1;
    }
    assert recs[i..] == [] && keys + [] == keys;
    err := None;
  }

  // ---------------------------------------------------------- TokensDelete

  function DeleteCommand(token: string): string { "privilegekeydelete token=" + token }

  /** TokensDelete (privilegekey.go:55-63): the token goes out as it is, unescaped. */
  method TokensDelete(c: Conn, token: string) returns (r: QueryResponse)
    requires c.Valid() && QuerySafe(c.State(), DeleteCommand(token))
    modifies c
    ensures c.Valid()
    ensures (r, c.State()) == Query(old(c.State()), DeleteCommand(token))
  {
    r := Command(c, DeleteCommand(token));
  }

  // ------------------------------------------------------------- TokensAdd

  /** One custom field as TokensAdd writes it (privilegekey.go:30-33): spaces become underscores. */
  function EntryText(k: string, v: string): string {
    "ident=" + ReplaceAll(k, " ", "_") + "\\svalue=" + ReplaceAll(v, " ", "_")
  }

  /**
   * The order in which Go's range visits the map: every name of `fields`
   * exactly once. Go leaves the order unspecified, so it is a parameter.
   */
  predicate IsOrder(order: seq<string>, fields: map<string, string>) {
    |order| == |fields| &&
    (forall i | 0 <= i < |order| :: order[i] in fields) &&
    (forall k | k in fields :: k in order) &&
    (forall i, j | 0 <= i < j < |order| :: order[i] != order[j])
  }

  function EntryTexts(order: seq<string>, fields: map<string, string>): (r: seq<string>)
    requires forall i | 0 <= i < |order| :: order[i] in fields
    ensures |r| == |order| && forall i | 0 <= i < |order| :: r[i] == EntryText(order[i], fields[order[i]])
  {
    seq(|order|, i requires 0 <= i < |order| => EntryText(order[i], fields[order[i]]))
  }

  /** The text the loop of TokensAdd accumulates: each entry preceded by `\p`. */
  function Prefixed(kvs: seq<string>): string
    decreases |kvs|
  {
    if |kvs| == 0 then "" else Prefixed(kvs[..|kvs| - 1]) + "\\p" + kvs[|kvs| - 1]
  }

  /**
   * The command TokensAdd sends (privilegekey.go:21-39): a server-group key
   * for `groupId` with the escaped description, and, when there are custom
   * fields, their entries with the leading `\` and `p` characters trimmed.
   */
  function TokensAddCommand(groupId: int, description: string, fields: map<string, string>, order: seq<string>): (r: string)
    requires IsOrder(order, fields)
    ensures var base := AddBase(FormatInt(groupId), Encode(description)); |r| >= |base| && r[..|base|] == base
    ensures |fields| == 0 <==> r == AddBase(FormatInt(groupId), Encode(description))
  {
    var s := AddBase(FormatInt(groupId), Encode(description));
    if |fields| > 0 then
      var entries := TrimLeft(Prefixed(EntryTexts(order, fields)), "\\p");
      LeadingPart(s, " tokencustomset=", entries);
      s + " tokencustomset=" + entries
    else s
  }

  lemma LeadingPart(a: string, b: string, c: string)
    ensures |a + b + c| == |a| + |b| + |c| && (a + b + c)[..|a|] == a
  { }

  /** The fixed part of the tokenadd command, with the group id and the escaped description filled in. */
  function AddBase(groupIdText: string, encodedDescription: string): string {
    "tokenadd tokentype=0 tokenid1=" + groupIdText + " tokenid2=0 tokendescription=" + encodedDescription
  }

  /** The loop of TokensAdd (privilegekey.go:29-36). */
  method JoinEntries(order: seq<string>, fields: map<string, string>) returns (str: string)
    requires forall i | 0 <= i < |order| :: order[i] in fields
    ensures str == Prefixed(EntryTexts(order, fields))
  {
    str := "";
    ghost var kvs := EntryTexts(order, fields);
    var i := 0;
    while i < |order|
      invariant 0 <= i <= |order|
      invariant str == Prefixed(kvs[..i])
    {
      var k := order[i];
      var kv := "ident=" + ReplaceAll(k, " ", "_") + "\\svalue=" + ReplaceAll(fields[k], " ", "_");
      assert kvs[..i + 1][..i] == kvs[..i];
      str := str + "\\p" + kv;
      i := i + 1;
    }
    assert kvs[..i] == kvs;
  }

  /** TokensAdd does not panic: the first line of the reply is a key, and a second line follows it unless that key fails. */
  ghost predicate TokensAddSafe(w: Wire, groupId: int, description: string, fields: map<string, string>, order: seq<string>) {
    IsOrder(order, fields) && WireValid(w) &&
    '%' !in TokensAddCommand(groupId, description, fields, order) &&
    var lines := Split(Send(w, TokensAddCommand(groupId, description, fields, order)).0, "\n");
    KeySafe(lines[0]) && (PrivilegeKeyOf(lines[0]).1.None? ==> |lines| >= 2 && StatusSafe(lines[1]))
  }

  /**
   * TokensAdd (privilegekey.go:20-52): the first line of the reply is parsed
   * as a key and the second as the status; when the key fails, both results
   * are zero values. The error result is always nil.
   */
  function TokenAdded(w: Wire, groupId: int, description: string, fields: map<string, string>, order: seq<string>): (r: (QueryResponse, PrivilegeKey, Wire))
    requires TokensAddSafe(w, groupId, description, fields, order)
    ensures r.2 == Send(w, TokensAddCommand(groupId, description, fields, order)).1
    ensures r.0.success ==> r.0.msg == "ok"
  {
    var sent := Send(w, TokensAddCommand(groupId, description, fields, order));
    var lines := Split(sent.0, "\n");
    var key := PrivilegeKeyOf(lines[0]);
    if key.1.Some? then (QueryResponse(0, "", false), EmptyKey, sent.1)
    else (ParseQueryResponse(lines[1]), key.0, sent.1)
  }

  method TokensAdd(c: Conn, groupId: int, description: string, fields: map<string, string>, order: seq<string>)
    returns (qr: QueryResponse, key: PrivilegeKey)
    requires c.Valid() && TokensAddSafe(c.State(), groupId, description, fields, order)
    modifies c
    ensures c.Valid()
    ensures (qr, key, c.State()) == TokenAdded(old(c.State()), groupId, description, fields, order)
  {
    var s := "tokenadd tokentype=0 tokenid1=" + FormatInt(groupId) + " tokenid2=0 tokendescription=" + Encode(description);
    if |fields| > 0 {
      s := s + " tokencustomset=";
      var str := JoinEntries(order, fields);
      s := s + TrimLeft(str, "\\p");
    }
    var res := c.Exec(s);
    var parts := Split(res, "\n");
    var k, err := ParsePrivilegeKey(parts[0]);
    if err.Some? {
      return QueryResponse(0, "", false), EmptyKey;
    }
    qr := ParseQueryResponse(parts[1]);
    key := k;
  }
  // ---------------------------------------------------------------- lemmas

  /** A name is stored exactly when some pair carries it. */
  lemma {:induction false} AssignKeys(pairs: seq<(string, string)>, k: string)
    ensures k in Assign(pairs) <==> exists i | 0 <= i < |pairs| :: pairs[i].0 == k
    decreases |pairs|
  {
    if |pairs| > 0 {
      var n := |pairs| - 1;
      AssignKeys(pairs[..n], k);
      if k in Assign(pairs) && k != pairs[n].0 {
        var i :| 0 <= i < n && pairs[..n][i].0 == k;
        assert pairs[i].0 == k;
      }
      if exists i | 0 <= i < |pairs| :: pairs[i].0 == k {
        var i :| 0 <= i < |pairs| && pairs[i].0 == k;
        if i < n {
          assert pairs[..n][i].0 == k;
        }
      }
    }
  }

  /** The value stored under a name is that of the last pair carrying it. */
  lemma {:induction false} AssignLast(pairs: seq<(string, string)>, i: nat)
    requires i < |pairs| && forall j | i < j < |pairs| :: pairs[j].0 != pairs[i].0
    ensures pairs[i].0 in Assign(pairs) && Assign(pairs)[pairs[i].0] == pairs[i].1
    decreases |pairs|
  {
    var n := |pairs| - 1;
    if i < n {
      assert pairs[..n][i] == pairs[i];
      forall j | i < j < n ensures pairs[..n][j].0 != pairs[..n][i].0 {
        assert pairs[..n][j] == pairs[j];
      }
      AssignLast(pairs[..n], i);
    }
  }

  function Pairs(order: seq<string>, fields: map<string, string>): (r: seq<(string, string)>)
    requires forall i | 0 <= i < |order| :: order[i] in fields
    ensures |r| == |order| && forall i | 0 <= i < |order| :: r[i] == (order[i], fields[order[i]])
  {
    seq(|order|, i requires 0 <= i < |order| => (order[i], fields[order[i]]))
  }

  /** Storing a map's entries in any visiting order rebuilds the map. */
  lemma AssignOrder(order: seq<string>, fields: map<string, string>)
    requires IsOrder(order, fields)
    ensures Assign(Pairs(order, fields)) == fields
  {
    var ps := Pairs(order, fields);
    var m := Assign(ps);
    forall k ensures k in m <==> k in fields {
      AssignKeys(ps, k);
      if k in fields {
        var i :| 0 <= i < |order| && order[i] == k;
        assert ps[i].0 == k;
      }
    }
    forall k | k in m ensures m[k] == fields[k] {
      AssignKeys(ps, k);
      var i :| 0 <= i < |ps| && ps[i].0 == k;
      AssignLast(ps, i);
    }
  }

  /** Names and values that survive the trip: no underscore, no `=` and no backslash. */
  predicate FieldText(t: string) { '_' !in t && '=' !in t && '\\' !in t }

  predicate FieldsText(fields: map<string, string>) {
    forall k | k in fields :: FieldText(k) && FieldText(fields[k])
  }

  /** Turning spaces into underscores and back gives a field text back, and adds no `=`, backslash or space. */
  lemma Underscores(t: string)
    requires FieldText(t)
    ensures ReplaceAll(t, " ", "_") == SubstChar(t, ' ', '_')
    ensures '=' !in SubstChar(t, ' ', '_') && '\\' !in SubstChar(t, ' ', '_') && ' ' !in SubstChar(t, ' ', '_')
    ensures ReplaceAll(SubstChar(t, ' ', '_'), "_", " ") == t
  {
    ReplaceAllChar(t, ' ', '_');
    var u := SubstChar(t, ' ', '_');
    ReplaceAllChar(u, '_', ' ');
    forall i | 0 <= i < |u| ensures u[i] != '=' && u[i] != '\\' && u[i] != ' ' && (u[i] == '_' <==> t[i] == ' ') {
      assert t[i] in t;
    }
    assert SubstChar(u, '_', ' ') == t;
  }

  /** The entry of a field splits on `\s` into its two halves and reads back as the field. */
  lemma EntryRoundTrip(k: string, v: string)
    requires FieldText(k) && FieldText(v)
    ensures EntrySafe(EntryText(k, v)) && ReadEntry(EntryText(k, v)) == (k, v)
  {
    Underscores(k);
    Underscores(v);
    var k', v' := SubstChar(k, ' ', '_'), SubstChar(v, ' ', '_');
    assert EntryText(k, v) == "ident=" + k' + "\\svalue=" + v';
    EntryHalves(k', v');
    GetValOfToken("ident", k');
    GetValOfToken("value", v');
    assert "ident" + "=" + k' == "ident=" + k';
    assert "value" + "=" + v' == "value=" + v';
  }

  lemma EntryHalves(k': string, v': string)
    requires '\\' !in k' && '\\' !in v'
    ensures Split("ident=" + k' + "\\svalue=" + v', "\\s") == ["ident=" + k', "value=" + v']
  {
    var a, b := "ident=" + k', "value=" + v';
    assert "ident=" + k' + "\\svalue=" + v' == a + "\\s" + b;
    forall i | 0 <= i < |a| ensures !MatchAt(a + "\\s" + b, i, "\\s") {
      assert (a + "\\s" + b)[i] == a[i];
      assert a[i] != '\\' by { if i >= 6 { assert a[i] == k'[i - 6]; } }
      NoMatchAt(a + "\\s" + b, i, "\\s");
    }
    SplitAfter(a, "\\s", b);
    forall i | 0 <= i < |b| ensures !MatchAt(b, i, "\\s") {
      assert b[i] != '\\' by { if i >= 6 { assert b[i] == v'[i - 6]; } }
      NoMatchAt(b, i, "\\s");
    }
    SplitFree(b, "\\s");
  }

  /** Every `=` in `t` sits two places after a character other than `e`. */
  predicate EqAfterNoE(t: string) {
    forall q | 0 <= q < |t| && t[q] == '=' :: q >= 2 && t[q - 2] != 'e'
  }

  /** Only `ident=` and `value=` put an `=` into an entry, and its only backslash opens `\s`. */
  lemma EntryShape(k: string, v: string)
    requires FieldText(k) && FieldText(v)
    ensures EqAfterNoE(EntryText(k, v)) && ' ' !in EntryText(k, v) && EntryText(k, v)[0] == 'i'
    ensures forall q | 0 <= q < |EntryText(k, v)| && EntryText(k, v)[q] == '\\' ::
      q + 1 < |EntryText(k, v)| && EntryText(k, v)[q + 1] == 's'
  {
    Underscores(k);
    Underscores(v);
    var k', v' := SubstChar(k, ' ', '_'), SubstChar(v, ' ', '_');
    var e := EntryText(k, v);
    assert e == "ident=" + k' + "\\svalue=" + v';
    forall q | 0 <= q < |e|
      ensures e[q] != ' '
      ensures e[q] == '=' ==> q >= 2 && e[q - 2] != 'e'
    {
      EntryChar(k', v', q);
    }
    forall q | 0 <= q < |e| && e[q] == '\\'
      ensures q + 1 < |e| && e[q + 1] == 's'
    {
      EntryChar(k', v', q);
    }
    EntryChar(k', v', 0);
  }

  /** One character of an entry whose halves hold no space, `=` or backslash. */
  lemma EntryChar(a: string, b: string, q: int)
    requires ' ' !in a && '=' !in a && '\\' !in a
    requires ' ' !in b && '=' !in b && '\\' !in b
    requires 0 <= q < |"ident=" + a + "\\svalue=" + b|
    ensures var e := "ident=" + a + "\\svalue=" + b;
      && e[q] != ' '
      && (e[q] == '=' ==> q >= 2 && e[q - 2] != 'e')
      && (e[q] == '\\' ==> q + 1 < |e| && e[q + 1] == 's')
      && (q == 0 ==> e[q] == 'i')
  {
    var e := "ident=" + a + "\\svalue=" + b;
    var n := 6 + |a|;
    if q < 6 {
      assert e[q] == "ident="[q];
      if q == 5 { assert e[3] == 'n'; }
    } else if q < n {
      assert e[q] == a[q - 6];
    } else if q < n + 8 {
      assert e[q] == "\\svalue="[q - n];
      if q == n { assert e[n + 1] == 's'; }
      if q == n + 7 { assert e[n + 5] == 'u'; }
    } else {
      assert e[q] == b[q - n - 8];
    }
  }



  lemma EqAfterNoEAppend(a: string, b: string)
    requires EqAfterNoE(a) && EqAfterNoE(b)
    ensures EqAfterNoE(a + b)
  {
    forall q | 0 <= q < |a + b| && (a + b)[q] == '=' ensures q >= 2 && (a + b)[q - 2] != 'e' {
      if q >= |a| {
        assert (a + b)[q] == b[q - |a|];
        assert (a + b)[q - 2] == b[q - |a| - 2];
      }
    }
  }

  lemma {:induction false} EqAfterNoEJoin(parts: seq<string>, sep: string)
    requires '=' !in sep && forall k | 0 <= k < |parts| :: EqAfterNoE(parts[k])
    ensures EqAfterNoE(Join(parts, sep))
    decreases |parts|
  {
    if |parts| > 1 {
      EqAfterNoEJoin(parts[1..], sep);
      EqAfterNoEAppend(parts[0], sep);
      EqAfterNoEAppend(parts[0] + sep, Join(parts[1..], sep));
    }
  }

  /** In such a text the key `token_customset=` cannot occur: its `=` follows an `e` two places back. */
  lemma SetKeyAbsent(t: string)
    requires EqAfterNoE(t)
    ensures Free(t, "token_customset=")
  {
    forall i | 0 <= i < |t| ensures !MatchAt(t, i, "token_customset=") {
      if i + 16 <= |t| {
        if t[i + 15] == '=' {
          assert t[i..i + 16][13] == t[i + 13] != 'e';
        } else {
          assert t[i..i + 16][15] == t[i + 15];
        }
      }
    }
  }

  /** An entry is safe to join on `\p`: its one backslash is followed by `s`. */
  lemma EntrySepSafe(k: string, v: string)
    requires FieldText(k) && FieldText(v)
    ensures SepSafe(EntryText(k, v), "\\p")
  {
    var e := EntryText(k, v);
    EntryShape(k, v);
    forall i | 0 <= i < |e| ensures !MatchAt(e + "\\p", i, "\\p") {
      assert (e + "\\p")[i] == e[i];
      if e[i] == '\\' {
        assert (e + "\\p")[i + 1] == 's';
        NoMatchAt(e + "\\p", i + 1, "p");
        assert (e + "\\p")[i..i + 2][1] == (e + "\\p")[i + 1];
      } else {
        NoMatchAt(e + "\\p", i, "\\p");
      }
    }
  }

  /**
   * The custom set TokensAdd writes, listed back under `token_customset=`,
   * is read by parseCustomSets into the very map it was written from,
   * whatever order the map was visited in.
   */
  lemma CustomSetRoundTrip(order: seq<string>, fields: map<string, string>)
    requires IsOrder(order, fields) && |fields| > 0 && FieldsText(fields)
    ensures CustomSetsSafe("token_customset=" + Join(EntryTexts(order, fields), "\\p"))
    ensures CustomSets("token_customset=" + Join(EntryTexts(order, fields), "\\p")) == fields
  {
    SetTextParts(order, fields);
    EntriesReadBack(order, fields);
    AssignOrder(order, fields);
  }

  lemma EntriesReadBack(order: seq<string>, fields: map<string, string>)
    requires forall i | 0 <= i < |order| :: order[i] in fields
    requires FieldsText(fields)
    ensures forall i | 0 <= i < |order| :: EntrySafe(EntryTexts(order, fields)[i])
    ensures ReadEntries(EntryTexts(order, fields)) == Pairs(order, fields)
  {
    var kvs := EntryTexts(order, fields);
    forall i | 0 <= i < |kvs| ensures EntrySafe(kvs[i]) && ReadEntry(kvs[i]) == Pairs(order, fields)[i] {
      EntryRoundTrip(order[i], fields[order[i]]);
    }
  }

  /** The entries of a written custom set come back, one by one, from the split of parseCustomSets. */
  lemma SetTextParts(order: seq<string>, fields: map<string, string>)
    requires IsOrder(order, fields) && |fields| > 0 && FieldsText(fields)
    ensures CustomParts("token_customset=" + Join(EntryTexts(order, fields), "\\p")) == EntryTexts(order, fields)
  {
    var kvs := EntryTexts(order, fields);
    var j := Join(kvs, "\\p");
    forall i | 0 <= i < |kvs| ensures EqAfterNoE(kvs[i]) && SepSafe(kvs[i], "\\p") {
      EntryShape(order[i], fields[order[i]]);
      EntrySepSafe(order[i], fields[order[i]]);
    }
    EqAfterNoEJoin(kvs, "\\p");
    SetKeyAbsent(j);
    ReplaceAllPrefix("token_customset=", j);
    SplitJoinSep(kvs, "\\p");
  }
  /** The accumulated text is the entries joined on `\p`, with one `\p` in front. */
  lemma {:induction false} PrefixedJoin(kvs: seq<string>)
    requires |kvs| >= 1
    ensures Prefixed(kvs) == "\\p" + Join(kvs, "\\p")
    decreases |kvs|
  {
    var n := |kvs| - 1;
    if n == 0 {
      assert Prefixed(kvs[..0]) == "";
    } else {
      PrefixedJoin(kvs[..n]);
      JoinSnoc(kvs[..n], kvs[n], "\\p");
      assert kvs[..n] + [kvs[n]] == kvs;
    }
  }

  /**
   * TrimLeft removes exactly the leading `\p`: the cut set is the two
   * characters `\` and `p`, and every entry starts with `i`.
   */
  lemma TrimEntries(order: seq<string>, fields: map<string, string>)
    requires IsOrder(order, fields) && |fields| > 0 && FieldsText(fields)
    ensures TrimLeft(Prefixed(EntryTexts(order, fields)), "\\p") == Join(EntryTexts(order, fields), "\\p")
  {
    var kvs := EntryTexts(order, fields);
    PrefixedJoin(kvs);
    EntryShape(order[0], fields[order[0]]);
    JoinFirst(kvs, "\\p");
    SeparatorCutset();
    TrimLeftCut("\\p", Join(kvs, "\\p"), "\\p");
  }

  /** Both characters of the entry separator are in its own cutset; an entry's first letter is not. */
  lemma SeparatorCutset()
    ensures forall i | 0 <= i < |"\\p"| :: "\\p"[i] in "\\p"
    ensures 'i' !in "\\p"
  {
  }

  /** The words of the tokenadd command, the custom set last when there is one. */
  function AddWords(groupId: int, description: string, fields: map<string, string>, order: seq<string>): seq<string>
    requires IsOrder(order, fields)
  {
    ["tokenadd", "tokentype=0", "tokenid1=" + FormatInt(groupId), "tokenid2=0"] +
    if |fields| > 0 then ["tokendescription=" + Encode(description), "tokencustomset=" + Join(EntryTexts(order, fields), "\\p")]
    else ["tokendescription=" + Encode(description)]
  }

  /**
   * The tokenadd command has five words, the escaped description in the
   * fifth, and a sixth holding the entries joined on `\p` exactly when there
   * are custom fields: no field can break it into more words.
   */
  lemma TokensAddWords(groupId: int, description: string, fields: map<string, string>, order: seq<string>)
    requires IsOrder(order, fields) && FieldsText(fields)
    ensures Split(TokensAddCommand(groupId, description, fields, order), " ") == AddWords(groupId, description, fields, order)
  {
    var f, e := FormatInt(groupId), Encode(description);
    FormatIntPlain(groupId);
    EncodeNoRaw(description, ' ');
    DescriptionKey();
    NoCharInToken("tokendescription", e, ' ');
    var w5 := "tokendescription=" + e;
    if |fields| > 0 {
      var t := TrimLeft(Prefixed(EntryTexts(order, fields)), "\\p");
      SetWordTail(w5, order, fields);
      AppendAssoc(AddBase(f, e), " tokencustomset=", t);
      assert TokensAddCommand(groupId, description, fields, order) == AddBase(f, e) + (" tokencustomset=" + t);
      AddBaseWords(f, e, " tokencustomset=" + t, [w5, "tokencustomset=" + Join(EntryTexts(order, fields), "\\p")]);
    } else {
      SplitCharFree(w5, ' ');
      assert w5 + "" == w5 && AddBase(f, e) + "" == AddBase(f, e);
      AddBaseWords(f, e, "", [w5]);
    }
  }

  /** The description word and the custom-set word split apart at the one space between them. */
  lemma SetWordTail(w5: string, order: seq<string>, fields: map<string, string>)
    requires IsOrder(order, fields) && |fields| > 0 && FieldsText(fields) && ' ' !in w5
    ensures Split(w5 + (" tokencustomset=" + TrimLeft(Prefixed(EntryTexts(order, fields)), "\\p")), " ")
         == [w5, "tokencustomset=" + Join(EntryTexts(order, fields), "\\p")]
  {
    var j := Join(EntryTexts(order, fields), "\\p");
    var w6 := "tokencustomset=" + j;
    SetWord(order, fields);
    assert w5 + (" tokencustomset=" + TrimLeft(Prefixed(EntryTexts(order, fields)), "\\p")) == w5 + [' '] + w6 by {
      SetWordShape(w5, j);
    }
    SplitTwo(w5, w6, ' ');
  }


  /** The custom-set word holds no space, and the trimmed text is the joined entries. */
  lemma SetWord(order: seq<string>, fields: map<string, string>)
    requires IsOrder(order, fields) && |fields| > 0 && FieldsText(fields)
    ensures TrimLeft(Prefixed(EntryTexts(order, fields)), "\\p") == Join(EntryTexts(order, fields), "\\p")
    ensures ' ' !in Join(EntryTexts(order, fields), "\\p")
    ensures ' ' !in "tokencustomset=" + Join(EntryTexts(order, fields), "\\p")
  {
    TrimEntries(order, fields);
    EntriesJoinFree(order, fields);
    CustomSetKeyFree();
    ConcatFree("tokencustomset=", Join(EntryTexts(order, fields), "\\p"), ' ');
  }

  lemma CustomSetKeyFree()
    ensures ' ' !in "tokencustomset="
  {
  }

  lemma EntriesJoinFree(order: seq<string>, fields: map<string, string>)
    requires IsOrder(order, fields) && FieldsText(fields)
    ensures ' ' !in Join(EntryTexts(order, fields), "\\p")
  {
    var kvs := EntryTexts(order, fields);
    forall i | 0 <= i < |kvs| ensures ' ' !in kvs[i] {
      EntryShape(order[i], fields[order[i]]);
    }
    JoinFree(kvs, "\\p", ' ');
  }

  lemma ConcatFree(a: string, b: string, c: char)
    requires c !in a && c !in b
    ensures c !in a + b
  {
    assert forall i | 0 <= i < |a + b| :: (a + b)[i] == if i < |a| then a[i] else b[i - |a|];
  }

  lemma AddBaseWords(f: string, e: string, rest: string, tail: seq<string>)
    requires ' ' !in f
    requires Split("tokendescription=" + e + rest, " ") == tail
    ensures Split(AddBase(f, e) + rest, " ") == ["tokenadd", "tokentype=0", "tokenid1=" + f, "tokenid2=0"] + tail
  {
    var w3 := "tokenid1=" + f;
    assert ' ' !in w3 by { NoCharInToken("tokenid1", f, ' '); assert "tokenid1" + "=" + f == w3; }
    AddBaseAssoc(f, e, rest);
    AddLiteralWords();
    SplitFourWords("tokenadd", "tokentype=0", w3, "tokenid2=0", "tokendescription=" + e + rest, tail);
  }

  /** Four words without spaces, each followed by one, then the rest. */
  lemma SplitFourWords(a: string, b: string, c: string, d: string, rest: string, tail: seq<string>)
    requires ' ' !in a && ' ' !in b && ' ' !in c && ' ' !in d
    requires Split(rest, " ") == tail
    ensures Split(a + [' '] + (b + [' '] + (c + [' '] + (d + [' '] + rest))), " ") == [a, b, c, d] + tail
  {
    var r3 := d + [' '] + rest;
    var r2 := c + [' '] + r3;
    var r1 := b + [' '] + r2;
    SplitCharAfter(d, ' ', rest);
    SplitCharAfter(c, ' ', r3);
    SplitCharAfter(b, ' ', r2);
    SplitCharAfter(a, ' ', r1);
    assert [a] + ([b] + ([c] + ([d] + tail))) == [a, b, c, d] + tail;
  }

  lemma SetWordShape(w: string, j: string)
    ensures w + (" tokencustomset=" + j) == w + [' '] + ("tokencustomset=" + j)
  {
    assert " tokencustomset=" == [' '] + "tokencustomset=";
  }

  lemma DescriptionKey()
    ensures ' ' !in "tokendescription" && "tokendescription" + "=" == "tokendescription="
  {
  }

  lemma AddLiteralWords()
    ensures ' ' !in "tokenadd" && ' ' !in "tokentype=0" && ' ' !in "tokenid2=0"
  {
  }

  lemma AddBaseAssoc(f: string, e: string, rest: string)
    ensures AddBase(f, e) + rest
      == "tokenadd" + [' '] + ("tokentype=0" + [' '] + (("tokenid1=" + f) + [' '] + ("tokenid2=0" + [' '] + ("tokendescription=" + e + rest))))
  {
    AddLiterals();
  }

  lemma AddLiterals()
    ensures " tokenid2=0 tokendescription=" == [' '] + "tokenid2=0" + [' '] + "tokendescription="
    ensures "tokenadd tokentype=0 tokenid1=" == "tokenadd" + [' '] + "tokentype=0" + [' '] + "tokenid1="
  {
  }
  /** The six plain fields of a privilegekeylist record, in the order the client reads them. */
  function KeyFields(token: string, typeText: string, id1: string, id2: string, created: string, description: string): seq<(string, string)> {
    [("token", token), ("token_type", typeText), ("token_id1", id1), ("token_id2", id2),
     ("token_created", created), ("token_description", Encode(description))]
  }

  /** A listed key: its plain fields, then its custom set. */
  function KeyRecord(fields: seq<(string, string)>, setText: string): string {
    Record(fields) + " " + ("token_customset=" + setText)
  }

  /** The words of a listed key: its `key=value` tokens, each giving its value back, then the custom set. */
  lemma KeyRecordWords(fields: seq<(string, string)>, setText: string)
    requires WellFormedFields(fields) && ' ' !in setText
    ensures var parts := Split(KeyRecord(fields, setText), " ");
      |parts| == |fields| + 1 && parts[|fields|] == "token_customset=" + setText &&
      forall i | 0 <= i < |fields| :: '=' in parts[i] && GetVal(parts[i]) == fields[i].1
  {
    var toks := RecordTokenSeq(fields);
    var all := toks + ["token_customset=" + setText];
    assert Record(fields) == Join(toks, " ");
    JoinSnoc(toks, "token_customset=" + setText, " ");
    forall k | 0 <= k < |all| ensures ' ' !in all[k] {
      if k < |toks| {
        TokenFacts(fields[k].0, fields[k].1);
      }
    }
    SplitJoinChar(all, ' ');
    forall i | 0 <= i < |fields| ensures '=' in all[i] && GetVal(all[i]) == fields[i].1 {
      TokenFacts(fields[i].0, fields[i].1);
    }
  }

  lemma KeyFieldsWellFormed(token: string, typeText: string, id1: string, id2: string, created: string, description: string)
    requires Bare(token) && Bare(typeText) && Bare(id1) && Bare(id2) && Bare(created) && Plain(description)
    ensures WellFormedFields(KeyFields(token, typeText, id1, id2, created, description))
  {
    var f := KeyFields(token, typeText, id1, id2, created, description);
    EncodedPlain(description);
    KeyNamesBare();
    forall i | 0 <= i < |f| ensures |f[i].0| > 0 && Bare(f[i].0) && Bare(f[i].1) {
      if i == 0 { assert f[i] == ("token", token); }
      else if i == 1 { assert f[i] == ("token_type", typeText); }
      else if i == 2 { assert f[i] == ("token_id1", id1); }
      else if i == 3 { assert f[i] == ("token_id2", id2); }
      else if i == 4 { assert f[i] == ("token_created", created); }
      else { assert f[i] == ("token_description", Encode(description)); }
    }
  }

  lemma KeyNamesBare()
    ensures |"token"| > 0 && Bare("token") && Bare("token_type") && Bare("token_id1")
    ensures Bare("token_id2") && Bare("token_created") && Bare("token_description")
  {
  }

  /** The tokens of a listed key as ParsePrivilegeKey indexes them. */
  lemma KeyRecordParts(token: string, typeText: string, id1: string, id2: string, created: string, description: string,
                       order: seq<string>, fields: map<string, string>)
    requires Bare(token) && Bare(typeText) && Bare(id1) && Bare(id2) && Bare(created) && Plain(description)
    requires IsOrder(order, fields) && |fields| > 0 && FieldsText(fields)
    ensures var parts := Split(KeyRecord(KeyFields(token, typeText, id1, id2, created, description), Join(EntryTexts(order, fields), "\\p")), " ");
      |parts| == 7 && HasVal(parts, 0) && HasVal(parts, 1) && HasVal(parts, 2) && HasVal(parts, 3) && HasVal(parts, 5) &&
      GetVal(parts[0]) == token && GetVal(parts[1]) == typeText && GetVal(parts[2]) == id1 && GetVal(parts[3]) == id2 &&
      Decode(GetVal(parts[5])) == description && CustomSetsSafe(parts[6]) && CustomSets(parts[6]) == fields
  {
    var kf := KeyFields(token, typeText, id1, id2, created, description);
    var j := Join(EntryTexts(order, fields), "\\p");
    KeyFieldsWellFormed(token, typeText, id1, id2, created, description);
    SetWord(order, fields);
    KeyRecordWords(kf, j);
    KeyFieldValues(token, typeText, id1, id2, created, description);
    DecodeEncode(description);
    CustomSetRoundTrip(order, fields);
  }

  lemma KeyFieldValues(token: string, typeText: string, id1: string, id2: string, created: string, description: string)
    ensures var f := KeyFields(token, typeText, id1, id2, created, description);
      |f| == 6 && f[0].1 == token && f[1].1 == typeText && f[2].1 == id1 && f[3].1 == id2 &&
      f[4].1 == created && f[5].1 == Encode(description)
  {
  }

  /**
   * A server-group key listed with type 0, its group in token_id1 and the
   * custom set TokensAdd writes is parsed into exactly that key.
   */
  lemma ServerKeyRecord(token: string, groupId: int, created: int, description: string, order: seq<string>, fields: map<string, string>)
    requires Bare(token) && IsInt64(groupId) && Plain(description)
    requires IsOrder(order, fields) && |fields| > 0 && FieldsText(fields)
    ensures var rec := KeyRecord(KeyFields(token, "0", FormatInt(groupId), "0", FormatInt(created), description), Join(EntryTexts(order, fields), "\\p"));
      KeySafe(rec) && PrivilegeKeyOf(rec) == (PrivilegeKey(0, description, groupId, token, "server", fields), None)
  {
    FormatIntBare(groupId);
    FormatIntBare(created);
    KeyRecordParts(token, "0", FormatInt(groupId), "0", FormatInt(created), description, order, fields);
    ParseFormat(groupId);
  }

  /**
   * A channel-group key (any type but 0) is read with the channel from
   * token_id1 and the group from token_id2.
   */
  lemma ChannelKeyRecord(token: string, typeText: string, channelId: int, groupId: int, created: int, description: string,
                         order: seq<string>, fields: map<string, string>)
    requires Bare(token) && Bare(typeText) && typeText != "0" && IsInt64(channelId) && IsInt64(groupId) && Plain(description)
    requires IsOrder(order, fields) && |fields| > 0 && FieldsText(fields)
    ensures var rec := KeyRecord(KeyFields(token, typeText, FormatInt(channelId), FormatInt(groupId), FormatInt(created), description),
                                 Join(EntryTexts(order, fields), "\\p"));
      KeySafe(rec) && PrivilegeKeyOf(rec) == (PrivilegeKey(channelId, description, groupId, token, "channel", fields), None)
  {
    var rec := KeyRecord(KeyFields(token, typeText, FormatInt(channelId), FormatInt(groupId), FormatInt(created), description),
                         Join(EntryTexts(order, fields), "\\p"));
    FormatIntBare(channelId);
    FormatIntBare(groupId);
    FormatIntBare(created);
    KeyRecordParts(token, typeText, FormatInt(channelId), FormatInt(groupId), FormatInt(created), description, order, fields);
    ParseFormat(channelId);
    ParseFormat(groupId);
    ChannelKeyOf(rec, Split(rec, " "), channelId, groupId);
  }

  /** The channel branch of ParsePrivilegeKey on seven tokens whose numbers read. */
  lemma ChannelKeyOf(s: string, parts: seq<string>, ch: int, g: int)
    requires parts == Split(s, " ")
    requires |parts| == 7 && HasVal(parts, 0) && HasVal(parts, 1) && HasVal(parts, 2) && HasVal(parts, 3) && HasVal(parts, 5)
    requires CustomSetsSafe(parts[6]) && GetVal(parts[1]) != "0"
    requires ParseInt(GetVal(parts[2])) == Ok(ch) && ParseInt(GetVal(parts[3])) == Ok(g)
    ensures KeySafe(s)
    ensures PrivilegeKeyOf(s) == (PrivilegeKey(ch, Decode(GetVal(parts[5])), g, GetVal(parts[0]), "channel", CustomSets(parts[6])), None)
  {
  }

  /**
   * An unreadable number in token 2 gives the empty key either way, but
   * only a server-group key reports the error.
   */
  lemma KeyIdErrors(s: string)
    requires KeySafe(s) && |Split(s, " ")| > 1 && IntVal(Split(s, " "), 2).Err?
    ensures PrivilegeKeyOf(s).0 == EmptyKey
    ensures PrivilegeKeyOf(s).1.Some? <==> GetVal(Split(s, " ")[1]) == "0"
  {
  }

  /** A reply line holding only `token=<key>`, as tokenadd answers, names the key and nothing else. */
  lemma BareTokenKey(t: string)
    requires Bare(t)
    ensures KeySafe("token=" + t) && PrivilegeKeyOf("token=" + t) == (EmptyKey.(token := t), None)
  {
    TokenFacts("token", t);
    assert "token=" + t == Token("token", t);
    SplitCharFree(Token("token", t), ' ');
  }

  /** Whatever was sent, a `token=<key>` line and a status line read back as that key and that status. */
  lemma TokenReplyLines(w: Wire, cmd: string, t: string, id: int, msg: string)
    requires WireValid(w) && w.open && |w.pending| > 0
    requires Bare(t) && IsInt64(id) && Plain(msg)
    requires |("token=" + t) + "\n\r" + StatusLine(FormatInt(id), msg) + "\n\r"| <= Bytes
    requires w.pending[0] == Received(("token=" + t) + "\n\r" + StatusLine(FormatInt(id), msg) + "\n\r")
    ensures var lines := Split(Send(w, cmd).0, "\n");
      KeySafe(lines[0]) && PrivilegeKeyOf(lines[0]) == (EmptyKey.(token := t), None) &&
      |lines| >= 2 && StatusSafe(lines[1]) && ParseQueryResponse(lines[1]) == QueryResponse(id, msg, msg == "ok")
  {
    var line := "token=" + t;
    assert '\n' !in line by {
      forall j | 0 <= j < |line| ensures line[j] != '\n' {
        if j >= 6 { assert line[j] == t[j - 6] && !IsSpace(t[j - 6]); }
      }
    }
    CustomSearchReadsStatus(line, id, msg);
    BareTokenKey(t);
  }

  /**
   * On tokenadd's answer, a `token=<key>` line and a status line, TokensAdd
   * returns the key with only its token set and reads the status intact.
   */
  lemma TokensAddReply(w: Wire, groupId: int, description: string, fields: map<string, string>, order: seq<string>,
                       t: string, id: int, msg: string)
    requires WireValid(w) && w.open && |w.pending| > 0 && IsOrder(order, fields)
    requires Bare(t) && IsInt64(id) && Plain(msg)
    requires '%' !in TokensAddCommand(groupId, description, fields, order)
    requires |("token=" + t) + "\n\r" + StatusLine(FormatInt(id), msg) + "\n\r"| <= Bytes
    requires w.pending[0] == Received(("token=" + t) + "\n\r" + StatusLine(FormatInt(id), msg) + "\n\r")
    ensures TokensAddSafe(w, groupId, description, fields, order)
    ensures TokenAdded(w, groupId, description, fields, order).0 == QueryResponse(id, msg, msg == "ok")
    ensures TokenAdded(w, groupId, description, fields, order).1 == EmptyKey.(token := t)
  {
    TokenReplyLines(w, TokensAddCommand(groupId, description, fields, order), t, id, msg);
  }

  /** Every key Tokenslist returns is the parse of the record at its position. */
  lemma KeyListValues(w: Wire, i: nat)
    requires KeyListSafe(w) && KeyList(w).1.Some? && i < |KeyList(w).1.value|
    ensures var recs := Split(Split(Send(w, "privilegekeylist").0, "\n")[0], "|");
      KeySafe(recs[i]) && PrivilegeKeyOf(recs[i]) == (KeyList(w).1.value[i], None)
  {
    var recs := Split(Split(Send(w, "privilegekeylist").0, "\n")[0], "|");
    ParseEachAt(KeyResult, recs, i);
  }

  /**
   * On a reply of one line of records and a status line, each ended by
   * `\n\r` and padded as Exec returns them, Tokenslist reads the status
   * intact from the second line, whether or not the records parse.
   */
  lemma KeyListStatus(w: Wire, recs: string, id: int, msg: string)
    requires WireValid(w) && w.open && |w.pending| > 0
    requires '\n' !in recs && IsInt64(id) && Plain(msg) && SafeUntilFailure(KeyResult, Split(recs, "|"))
    requires |recs + "\n\r" + StatusLine(FormatInt(id), msg) + "\n\r"| <= Bytes
    requires w.pending[0] == Received(recs + "\n\r" + StatusLine(FormatInt(id), msg) + "\n\r")
    ensures KeyListSafe(w)
    ensures KeyList(w).0 == QueryResponse(id, msg, msg == "ok")
  {
    CustomSearchReadsStatus(recs, id, msg);
  }

  /** The delete command carries the token as its one argument, read back by GetVal. */
  lemma DeleteCommandWords(token: string)
    requires Bare(token)
    ensures Split(DeleteCommand(token), " ") == ["privilegekeydelete", "token=" + token]
    ensures GetVal("token=" + token) == token
  {
    DeleteLiterals();
    TokenFacts("token", token);
    assert "token=" + token == Token("token", token);
    assert DeleteCommand(token) == "privilegekeydelete" + [' '] + ("token=" + token);
    SplitTwo("privilegekeydelete", "token=" + token, ' ');
  }

  lemma DeleteLiterals()
    ensures Bare("token") && "token" + "=" == "token=" && ' ' !in "privilegekeydelete"
    ensures "privilegekeydelete token=" == "privilegekeydelete" + [' '] + "token="
  {
  }
}
