/**
 * Channel groups over the HTTP variant (channelgroups.go). Every call goes
 * through get; the JSON decoders and the helpers the file calls but does not
 * define (UserFindByDbId, UserPoke and the three-result ActiveClients) are
 * oracles collected in a Backend.
 */
module ChannelGroups {
  import opened Wrappers
  import opened Strconv
  import opened Ts3Http
  import opened Users
  import ServerGroups

  /** ChannelGroup (channelgroups.go:8-12); the type is one of the GroupType constants. */
  datatype ChannelGroup = ChannelGroup(id: int, name: string, groupType: int)

  /** The HTTP ActiveClients: its status (nil on failure), the sessions of each database id, its error. */
  datatype ActiveReply = ActiveReply(status: Option<Status>, sessions: map<int, seq<int>>, err: Option<string>)

  /** The behaviour this file relies on but does not define. */
  datatype Backend = Backend(
    fetch: Request -> HttpReply,           // get's round trip to the server
    groupsOf: string -> seq<ChannelGroup>, // json.Unmarshal of a channelgrouplist body
    cldbidsOf: string -> seq<int>,         // json.Unmarshal of a channelgroupclientlist body
    active: ActiveReply,                   // ActiveClients()
    findUser: int -> Option<User>,         // UserFindByDbId: None when it errs
    pokeFails: (int, string) -> bool)      // UserPoke: true when it errs

  /** A (*status, error) pair. */
  datatype Outcome = Outcome(status: Option<Status>, err: Option<string>)

  datatype GroupsResult = GroupsResult(status: Option<Status>, groups: Option<seq<ChannelGroup>>, err: Option<string>)

  datatype MembersResult = MembersResult(status: Option<Status>, members: Option<seq<User>>, err: Option<string>)

  /** The guard `err != nil || !qres.IsSuccess()`; when err is nil the status is always present. */
  predicate Failed(status: Option<Status>, err: Option<string>) {
    err.Some? || (status.Some? && !IsSuccess(status.value))
  }

  // ------------------------------------------------------- ChannelGroups

  /** ChannelGroups (channelgroups.go:15-25). */
  function GroupsOf(s: Settings, b: Backend): (r: GroupsResult)
    ensures r.err.None? ==> r.status.Some?
    ensures r.groups.Some? <==> !Failed(r.status, r.err)
  {
    var g := GetOf(s, "channelgrouplist", false, [], b.fetch);
    if Failed(g.status, g.err) then GroupsResult(g.status, None, g.err)
    else GroupsResult(g.status, Some(b.groupsOf(g.body)), None)
  }

  method ListChannelGroups(api: HttpConfig, b: Backend) returns (r: GroupsResult)
    ensures r == GroupsOf(api.Current(), b)
  {
    var g := api.Get("channelgrouplist", false, [], b.fetch);
    if g.err.Some? || !IsSuccess(g.status.value) {
      return GroupsResult(g.status, None, g.err);
    }
    var groups := b.groupsOf(g.body);
    r := GroupsResult(g.status, Some(groups), None);
  }

  // ----------------------------------------------------- SetChannelGroup

  /** The parameters of setclientchannelgroup: cgid, cid, cldbid. */
  function SetQuery(cgid: int, cid: int, cldbid: int): seq<KeyValue> {
    [KeyValue("cgid", FormatInt(cgid)), KeyValue("cid", FormatInt(cid)), KeyValue("cldbid", FormatInt(cldbid))]
  }

  /** SetChannelGroup (channelgroups.go:28-41): get's status and error, passed through. */
  function SetOf(s: Settings, b: Backend, cgid: int, cid: int, cldbid: int): (r: Outcome)
    ensures r.err.None? <==> r.status.Some?
  {
    var g := GetOf(s, "setclientchannelgroup", false, [SetQuery(cgid, cid, cldbid)], b.fetch);
    Outcome(g.status, g.err)
  }

  method SetChannelGroup(api: HttpConfig, b: Backend, cgid: int, cid: int, cldbid: int) returns (r: Outcome)
    ensures r == SetOf(api.Current(), b, cgid, cid, cldbid)
  {
    var queries := [KeyValue("cgid", FormatInt(cgid)), KeyValue("cid", FormatInt(cid)), KeyValue("cldbid", FormatInt(cldbid))];
    var g := api.Get("setclientchannelgroup", false, [queries], b.fetch);
    r := Outcome(g.status, g.err);
  }

  // --------------------------------------------------- ResetChannelGroup

  /** The default channel group: named exactly "Guest" and of the regular type. */
  predicate IsGuest(g: ChannelGroup) {
    g.name == "Guest" && g.groupType == ServerGroups.RegularGroup
  }

  /** The id of the first guest group in list order, 0 when there is none. */
  function GuestId(groups: seq<ChannelGroup>): (r: int)
    ensures r != 0 ==> exists i | 0 <= i < |groups| :: IsGuest(groups[i]) && groups[i].id == r
    decreases |groups|
  {
    if |groups| == 0 then 0
    else if IsGuest(groups[0]) then groups[0].id
    else
      var r := GuestId(groups[1..]);
      assert r != 0 ==> exists i | 0 <= i < |groups[1..]| :: IsGuest(groups[1..][i]) && groups[1..][i].id == r;
      r
  }

  /** ResetChannelGroup (channelgroups.go:45-61). */
  function ResetOf(s: Settings, b: Backend, cid: int, cldbid: int): (r: Outcome)
    ensures r.err.None? <==> r.status.Some?
  {
    var g := GroupsOf(s, b);
    if Failed(g.status, g.err) then Outcome(g.status, g.err)
    else SetOf(s, b, GuestId(g.groups.value), cid, cldbid)
  }

  method ResetChannelGroup(api: HttpConfig, b: Backend, cid: int, cldbid: int) returns (r: Outcome)
    ensures r == ResetOf(api.Current(), b, cid, cldbid)
  {
    var g := ListChannelGroups(api, b);
    if g.err.Some? || !IsSuccess(g.status.value) {
      return Outcome(g.status, g.err);
    }
    var groups := g.groups.value;
    var cgid := 0;
    var i := 0;
    while i < |groups|
      invariant 0 <= i <= |groups|
      invariant GuestId(groups[i..]) == GuestId(groups)
    {
      if IsGuest(groups[i]) {
        cgid := groups[i].id;
        break;
      }
      assert groups[i..][1..] == groups[i + 1..];
      i := i + 1;
    }
    r := SetChannelGroup(api, b, cgid, cid, cldbid);
  }

  // ------------------------------------------------- ChannelGroupMembers

  /** The parameters of channelgroupclientlist: cid, then cgid. */
  function MembersQuery(cgid: int, cid: int): seq<KeyValue> {
    [KeyValue("cid", FormatInt(cid)), KeyValue("cgid", FormatInt(cgid))]
  }

  /** A looked-up user carrying the sessions ActiveClients reported for its database id. */
  function Member(u: User, sessions: map<int, seq<int>>, id: int): User {
    u.(activeSessionIds := Lookup(sessions, id))
  }

  /** The members the loop keeps: one per id whose lookup succeeds, in id order. */
  function Found(ids: seq<int>, sessions: map<int, seq<int>>, findUser: int -> Option<User>): (r: seq<User>)
    ensures |r| <= |ids|
    decreases |ids|
  {
    if |ids| == 0 then []
    else
      var n := |ids| - 1;
      Found(ids[..n], sessions, findUser) +
        match findUser(ids[n])
        case None => []
        case Some(u) => [Member(u, sessions, ids[n])]
  }

  /** ChannelGroupMembers (channelgroups.go:64-107). */
  function MembersOf(s: Settings, b: Backend, cgid: int, cid: int): (r: MembersResult)
    ensures r.err.None? ==> r.status.Some?
    ensures r.members.Some? <==> !Failed(r.status, r.err)
  {
    var g := GetOf(s, "channelgroupclientlist", false, [MembersQuery(cgid, cid)], b.fetch);
    if Failed(g.status, g.err) then MembersResult(g.status, None, g.err)
    else if b.active.err.Some? then MembersResult(b.active.status, None, b.active.err)
    else MembersResult(g.status, Some(Found(b.cldbidsOf(g.body), b.active.sessions, b.findUser)), None)
  }

  method ChannelGroupMembers(api: HttpConfig, b: Backend, cgid: int, cid: int) returns (r: MembersResult)
    ensures r == MembersOf(api.Current(), b, cgid, cid)
  {
    var queries := [KeyValue("cid", FormatInt(cid)), KeyValue("cgid", FormatInt(cgid))];
    var g := api.Get("channelgroupclientlist", false, [queries], b.fetch);
    if g.err.Some? || !IsSuccess(g.status.value) {
      return MembersResult(g.status, None, g.err);
    }
    var ids := b.cldbidsOf(g.body);
    var active := b.active;
    if active.err.Some? {
      return MembersResult(active.status, None, active.err);
    }
    var members: seq<User> := [];
    var i := 0;
    while i < |ids|
      invariant 0 <= i <= |ids|
      invariant members == Found(ids[..i], active.sessions, b.findUser)
    {
      var id := ids[i];
      i := i + 1;
      assert ids[..i][..i - 1] == ids[..i - 1];
      var u := b.findUser(id);
      if u.None? {
        continue;
      }
      members := members + [u.value.(activeSessionIds := Lookup(active.sessions, id))];
    }
    assert ids[..i] == ids;
    r := MembersResult(g.status, Some(members), None);
  }

  // --------------------------------------------------- ChannelGroupPoke

  /** How many of the pokes to `ids` fail. */
  function FailedPokes(ids: seq<int>, msg: string, pokeFails: (int, string) -> bool): nat
    decreases |ids|
  {
    if |ids| == 0 then 0
    else
      var n := |ids| - 1;
      FailedPokes(ids[..n], msg, pokeFails) + if pokeFails(ids[n], msg) then 1 else 0
  }

  /** The synthesized message; its percentage is integer arithmetic. */
  function PokeMessage(attempted: int, failed: int): (r: string)
    requires attempted != 0
    ensures 0 <= failed <= attempted ==>
      r == FormatInt(if failed == 0 then 100 else 0) + "% of clients successfully poked (" + FormatInt(failed) + " failed)"
  {
    var percent := ((attempted - failed) / attempted) * 100;
    assert 0 <= failed <= attempted ==> percent == if failed == 0 then 100 else 0 by {
      if 0 <= failed <= attempted {
        PokePercent(attempted, failed);
      }
    }
    FormatInt(percent) + "% of clients successfully poked (" + FormatInt(failed) + " failed)"
  }

  /** Go panics dividing by zero when the members have no session between them. */
  predicate PokeSafe(s: Settings, b: Backend, cgid: int, cid: int) {
    var m := MembersOf(s, b, cgid, cid);
    m.members.Some? ==> |ServerGroups.SessionsOf(m.members.value)| > 0
  }

  /** ChannelGroupPoke (channelgroups.go:110-135): every session of every member is poked once. */
  function PokeOf(s: Settings, b: Backend, cgid: int, cid: int, msg: string): (r: Outcome)
    requires PokeSafe(s, b, cgid, cid)
    ensures r.err == MembersOf(s, b, cgid, cid).err
    ensures MembersOf(s, b, cgid, cid).members.Some? ==> r.status.Some? && IsSuccess(r.status.value)
  {
    var m := MembersOf(s, b, cgid, cid);
    if m.members.None? then Outcome(m.status, m.err)
    else
      var ids := ServerGroups.SessionsOf(m.members.value);
      Outcome(Some(Status(-1, PokeMessage(|ids|, FailedPokes(ids, msg, b.pokeFails)))), None)
  }

  method ChannelGroupPoke(api: HttpConfig, b: Backend, cgid: int, cid: int, msg: string) returns (r: Outcome)
    requires PokeSafe(api.Current(), b, cgid, cid)
    ensures r == PokeOf(api.Current(), b, cgid, cid, msg)
  {
    var m := ChannelGroupMembers(api, b, cgid, cid);
    if m.err.Some? || !IsSuccess(m.status.value) {
      return Outcome(m.status, m.err);
    }
    var members := m.members.value;
    var attempted := 0;
    var failed := 0;
    var j := 0;
    while j < |members|
      invariant 0 <= j <= |members|
      invariant attempted == |ServerGroups.SessionsOf(members[..j])|
      invariant failed == FailedPokes(ServerGroups.SessionsOf(members[..j]), msg, b.pokeFails)
    {
      var ids := members[j].activeSessionIds;
      ghost var done := ServerGroups.SessionsOf(members[..j]);
      var i := 0;
      assert done + ids[..0] == done;
      while i < |ids|
        invariant 0 <= i <= |ids|
        invariant attempted == |done| + i
        invariant failed == FailedPokes(done + ids[..i], msg, b.pokeFails)
      {
        FailedPokesSnoc(done, ids, i, msg, b.pokeFails);
        if b.pokeFails(ids[i], msg) {
          failed := failed + 1;
        }
        attempted := attempted + 1;
        i := i + 1;
      }
      SessionsOfStep(members, j);
      j := j + 1;
    }
    assert members[..j] == members;
    PokeOfValue(api.Current(), b, cgid, cid, msg);
    r := Outcome(Some(Status(-1, PokeMessage(attempted, failed))), None);
  }

  /** One more poke of the inner loop: the failure count grows by its outcome. */
  lemma FailedPokesSnoc(done: seq<int>, ids: seq<int>, i: int, msg: string, pokeFails: (int, string) -> bool)
    requires 0 <= i < |ids|
    ensures FailedPokes(done + ids[..i + 1], msg, pokeFails)
         == FailedPokes(done + ids[..i], msg, pokeFails) + if pokeFails(ids[i], msg) then 1 else 0
  {
    assert (done + ids[..i + 1])[..|done| + i] == done + ids[..i];
  }

  /** One more member of the outer loop: its sessions follow those of the members before it. */
  lemma SessionsOfStep(members: seq<User>, j: int)
    requires 0 <= j < |members|
    ensures ServerGroups.SessionsOf(members[..j + 1]) == ServerGroups.SessionsOf(members[..j]) + members[j].activeSessionIds
    ensures members[j].activeSessionIds[..|members[j].activeSessionIds|] == members[j].activeSessionIds
  {
    assert members[..j + 1][..j] == members[..j];
  }

  /** What PokeOf returns once the members are fetched. */
  lemma PokeOfValue(s: Settings, b: Backend, cgid: int, cid: int, msg: string)
    requires PokeSafe(s, b, cgid, cid) && MembersOf(s, b, cgid, cid).members.Some?
    ensures var ids := ServerGroups.SessionsOf(MembersOf(s, b, cgid, cid).members.value);
      |ids| > 0 &&
      PokeOf(s, b, cgid, cid, msg) == Outcome(Some(Status(-1, PokeMessage(|ids|, FailedPokes(ids, msg, b.pokeFails)))), None)
  {
  }

  // -------------------------------------------------------------- lemmas

  /** The id ResetChannelGroup picks is that of the first guest group. */
  lemma {:induction false} GuestIdFirst(groups: seq<ChannelGroup>, i: int)
    requires 0 <= i < |groups| && IsGuest(groups[i])
    requires forall j | 0 <= j < i :: !IsGuest(groups[j])
    ensures GuestId(groups) == groups[i].id
    decreases i
  {
    if i > 0 {
      assert !IsGuest(groups[0]);
      GuestIdFirst(groups[1..], i - 1);
    }
  }

  /** Without a guest group the id is 0. */
  lemma {:induction false} GuestIdNone(groups: seq<ChannelGroup>)
    requires forall j | 0 <= j < |groups| :: !IsGuest(groups[j])
    ensures GuestId(groups) == 0
    decreases |groups|
  {
    if |groups| > 0 {
      GuestIdNone(groups[1..]);
    }
  }

  /** setclientchannelgroup binds each id to its own key. */
  lemma SetRequest(cgid: int, cid: int, cldbid: int)
    ensures QueryOf([SetQuery(cgid, cid, cldbid)]) ==
      map["cgid" := [FormatInt(cgid)], "cid" := [FormatInt(cid)], "cldbid" := [FormatInt(cldbid)]]
  {
    ThreeParams(KeyValue("cgid", FormatInt(cgid)), KeyValue("cid", FormatInt(cid)), KeyValue("cldbid", FormatInt(cldbid)));
  }

  /** channelgroupclientlist binds each id to its own key. */
  lemma MembersRequest(cgid: int, cid: int)
    ensures QueryOf([MembersQuery(cgid, cid)]) == map["cid" := [FormatInt(cid)], "cgid" := [FormatInt(cgid)]]
  {
    TwoParams(KeyValue("cid", FormatInt(cid)), KeyValue("cgid", FormatInt(cgid)));
  }

  /** The filter keeps order: the members of a concatenation are the members of each part, in turn. */
  lemma {:induction false} FoundAppend(a: seq<int>, c: seq<int>, sessions: map<int, seq<int>>, findUser: int -> Option<User>)
    ensures Found(a + c, sessions, findUser) == Found(a, sessions, findUser) + Found(c, sessions, findUser)
    decreases |c|
  {
    if |c| == 0 {
      assert a + c == a;
    } else {
      var n := |c| - 1;
      assert (a + c)[..|a| + n] == a + c[..n];
      assert (a + c)[|a| + n] == c[n];
      FoundAppend(a, c[..n], sessions, findUser);
      var tail := match findUser(c[n]) case None => [] case Some(u) => [Member(u, sessions, c[n])];
      assert Found(a + c, sessions, findUser) == Found(a + c[..n], sessions, findUser) + tail;
      assert Found(c, sessions, findUser) == Found(c[..n], sessions, findUser) + tail;
    }
  }

  /** One id gives its member, with its sessions, or nothing when its lookup errs. */
  lemma FoundOne(id: int, sessions: map<int, seq<int>>, findUser: int -> Option<User>)
    ensures Found([id], sessions, findUser) ==
      if findUser(id).Some? then [findUser(id).value.(activeSessionIds := Lookup(sessions, id))] else []
  {
    assert [id][..0] == [];
  }

  /** When every lookup succeeds, member i is the user of id i. */
  lemma {:induction false} FoundAll(ids: seq<int>, sessions: map<int, seq<int>>, findUser: int -> Option<User>)
    requires forall i | 0 <= i < |ids| :: findUser(ids[i]).Some?
    ensures |Found(ids, sessions, findUser)| == |ids|
    ensures forall i | 0 <= i < |ids| ::
      Found(ids, sessions, findUser)[i] == findUser(ids[i]).value.(activeSessionIds := Lookup(sessions, ids[i]))
    decreases |ids|
  {
    if |ids| > 0 {
      var n := |ids| - 1;
      FoundAll(ids[..n], sessions, findUser);
    }
  }

  /** Every member comes from some id whose lookup succeeded; there are never more members than ids. */
  lemma {:induction false} FoundFrom(ids: seq<int>, sessions: map<int, seq<int>>, findUser: int -> Option<User>)
    ensures |Found(ids, sessions, findUser)| <= |ids|
    ensures forall u | u in Found(ids, sessions, findUser) ::
      exists i | 0 <= i < |ids| :: findUser(ids[i]).Some? && u == Member(findUser(ids[i]).value, sessions, ids[i])
    decreases |ids|
  {
    if |ids| > 0 {
      var n := |ids| - 1;
      FoundFrom(ids[..n], sessions, findUser);
      forall u | u in Found(ids, sessions, findUser)
        ensures exists i | 0 <= i < |ids| :: findUser(ids[i]).Some? && u == Member(findUser(ids[i]).value, sessions, ids[i])
      {
        if u in Found(ids[..n], sessions, findUser) {
          var i :| 0 <= i < n && findUser(ids[..n][i]).Some? && u == Member(findUser(ids[..n][i]).value, sessions, ids[..n][i]);
          assert ids[..n][i] == ids[i];
        } else {
          assert findUser(ids[n]).Some? && u == Member(findUser(ids[n]).value, sessions, ids[n]);
        }
      }
    }
  }

  /**
   * The members come with the status of the member-list request, which
   * reads as a success; when ActiveClients fails, its own status and error
   * replace that one and there is no list.
   */
  lemma MembersStatus(s: Settings, b: Backend, cgid: int, cid: int)
    ensures var g := GetOf(s, "channelgroupclientlist", false, [MembersQuery(cgid, cid)], b.fetch);
      var r := MembersOf(s, b, cgid, cid);
      && (r.members.Some? ==> r.status == g.status && r.status.Some? && IsSuccess(r.status.value) && r.err.None?)
      && (!Failed(g.status, g.err) && b.active.err.Some? ==> r == MembersResult(b.active.status, None, b.active.err))
      && (Failed(g.status, g.err) ==> r == MembersResult(g.status, None, g.err))
  {
  }

  /** No more pokes fail than are sent, and none fails exactly when every poke succeeds. */
  lemma {:induction false} FailedPokesBound(ids: seq<int>, msg: string, pokeFails: (int, string) -> bool)
    ensures FailedPokes(ids, msg, pokeFails) <= |ids|
    ensures FailedPokes(ids, msg, pokeFails) == 0 <==> forall i | 0 <= i < |ids| :: !pokeFails(ids[i], msg)
    decreases |ids|
  {
    if |ids| > 0 {
      var n := |ids| - 1;
      FailedPokesBound(ids[..n], msg, pokeFails);
      if FailedPokes(ids, msg, pokeFails) == 0 {
        forall i | 0 <= i < |ids| ensures !pokeFails(ids[i], msg) {
          if i < n {
            assert ids[..n][i] == ids[i];
          }
        }
      }
      if forall i | 0 <= i < |ids| :: !pokeFails(ids[i], msg) {
        forall i | 0 <= i < n ensures !pokeFails(ids[..n][i], msg) {
          assert ids[..n][i] == ids[i];
        }
      }
    }
  }

  /** The percentage is 100 with no failure and 0 as soon as one poke fails. */
  lemma PokePercent(attempted: int, failed: int)
    requires 0 <= failed <= attempted && attempted > 0
    ensures ((attempted - failed) / attempted) * 100 == if failed == 0 then 100 else 0
  {
    if failed > 0 {
      assert 0 <= attempted - failed < attempted;
    }
  }

  /**
   * Once the members are fetched, the poke's status has code -1 and so
   * reads as a success however many pokes failed, the error is nil, and the
   * message reports 100% or 0% and the number of failed pokes.
   */
  lemma PokeReport(s: Settings, b: Backend, cgid: int, cid: int, msg: string)
    requires PokeSafe(s, b, cgid, cid)
    ensures var m := MembersOf(s, b, cgid, cid);
      var r := PokeOf(s, b, cgid, cid, msg);
      if m.members.None? then r == Outcome(m.status, m.err)
      else
        var ids := ServerGroups.SessionsOf(m.members.value);
        var failed := FailedPokes(ids, msg, b.pokeFails);
        r.err.None? && r.status.Some? && IsSuccess(r.status.value) &&
        r.status.value.message ==
          FormatInt(if failed == 0 then 100 else 0) + "% of clients successfully poked (" + FormatInt(failed) + " failed)" &&
        (failed == 0 <==> forall i | 0 <= i < |ids| :: !b.pokeFails(ids[i], msg))
  {
    var m := MembersOf(s, b, cgid, cid);
    if m.members.Some? {
      var ids := ServerGroups.SessionsOf(m.members.value);
      FailedPokesBound(ids, msg, b.pokeFails);
      PokePercent(|ids|, FailedPokes(ids, msg, b.pokeFails));
    }
  }
}
