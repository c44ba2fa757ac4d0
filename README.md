# Teamspeak-GO in Dafny

A model of the TeamSpeak 3 ServerQuery client Teamspeak-GO, with proofs about it. The client has two variants:

- **Telnet.** A `Conn` sends text commands with `Exec` and parses the text replies. The files are ts3.go, utils.go, server.go, servergroups.go, user.go and privilegekey.go.
- **HTTP.** It sends WebQuery requests through `get` and reads a JSON status. The files are ts3Http.go and channelgroups.go.

The model covers four things:

- the ServerQuery escaping codec;
- the parsers of status lines and list records;
- the command texts the client writes;
- the loops and selection rules built on top of them.

## Layout

There is one module per Go file. Four helper modules stand in for the Go library functions the client uses.

| module | file | what it holds |
|---|---|---|
| `Wrappers` | wrappers.dfy | `Option` and `Result` |
| `Strs` | strs.dfy | `strings.Split`, `Join`, `ReplaceAll`, `TrimSpace`, `TrimLeft`, with split/join lemmas |
| `Strconv` | strconv.dfy | `strconv.ParseInt(s, 10, 64)`, and `FormatInt` for fmt's `%v` of an integer |
| `Records` | records.dfy | the "parse each record, stop at the first failure" loop shared by `List`, `Tokenslist`, `ServerGroups` and `ActiveClients` |
| `Codec` | codec.dfy | utils.go's `Encode`/`Decode` replacer tables |
| `Utils` | utils.dfy | `GetVal`, `ParseQueryResponse`, `ParseVirtualServer` |
| `Ts3` | ts3.dfy | `Conn`, `Exec`, `Connect`, `Login`, `Disconnect` |
| `Server` | server.dfy | server.go |
| `ServerGroups` | servergroups.dfy | servergroups.go |
| `Users` | users.dfy | user.go |
| `PrivilegeKeys` | privilegekey.dfy | privilegekey.go |
| `Ts3Http` | ts3http.dfy | ts3Http.go |
| `ChannelGroups` | channelgroups.dfy | channelgroups.go |

The telnet socket becomes a script, `Wire`:

- whether the connection is open;
- the outcome each coming `Exec` will have: the write fails, the read fails, or a chunk of text arrives;
- the frames written so far.

`Ts3.Send` says what one `Exec` does to a `Wire`. The `Conn` class holds the same three fields and updates them in place. Each command of the other files is specified by a function over `Wire`, and its method on `Conn` is proved against that function.

The HTTP round trip is an oracle, `fetch`. It maps the request that `get` builds (URL, query parameters, API key) to a transport error or a decoded status and body. The helpers channelgroups.go calls but does not define are collected in a `Backend` value:

- the JSON decoders of the list bodies;
- `UserFindByDbId`;
- `UserPoke`;
- the three-result `ActiveClients`.

## Model

| member | source | states |
|---|---|---|
| `Codec.Encode` | utils.go:11-23 | the escaped text is never shorter than the original and at most twice as long; `Codec.DecodeEncode` proves `Decode` undoes it |
| `Codec.Decode` | utils.go:27-45 | the decoded text is never longer than the escaped one and at least half as long; `Codec.DecodeEncode` and `Codec.EncodeDecode` prove it inverse to `Encode` |
| `Codec.UnescapeOf` | utils.go:27-39 | every escape letter the decoder knows stands for a character whose escape under the encoder is that same letter |
| `Codec.EscapeInverse` | utils.go:11-39 | every character the encoder escapes is restored by the decoder's table from its escape letter |
| `Codec.DecodeEncode` | utils.go:43-49 | `Decode(Encode(s)) == s` for every string |
| `Codec.EncodeEscaped` | utils.go:11-23 | encoded text is well escaped: every backslash opens a known escape and no other reserved character is raw, except `/` as an escape letter |
| `Codec.EncodeDecode` | utils.go:27-49 | on well-escaped text `Encode(Decode(t)) == t`, so Encode is onto the escaped strings |
| `Codec.EscapedHasNoRawReserved` | utils.go:11-23 | well-escaped text holds no raw space, `\|` or control character of the table |
| `Codec.EncodeNoRaw` | utils.go:11-23 | no reserved character other than `\` and `/` ever occurs in `Encode(s)` |
| `Codec.EncodeAppend` | utils.go:47-49 | `Encode(a + b) == Encode(a) + Encode(b)` |
| `Codec.EncodeLength` | utils.go:11-23 | encoding grows the text by exactly one character per reserved character |
| `Codec.EncodeFixpoint` | utils.go:11-23 | `Encode(s) == s` exactly when `s` has no reserved character |
| `Codec.EncodeChars` | utils.go:11-23 | every character of `Encode(s)` comes from `s`, or is a backslash or an escape letter |
| `Codec.DecodePlain` | utils.go:43-45 | text without a backslash decodes to itself |
| `Codec.DecodeNoRescan` | utils.go:27-45 | Decode does not rescan its output: an escaped backslash before any text becomes one backslash followed by that text decoded, so backslash, backslash, `s` gives backslash, `s` |
| `Codec.DecodeUnknownEscape` | utils.go:27-45 | a backslash before any letter outside the escape table, such as `\x`, is copied, and decoding resumes at that letter |
| `Strconv.ParseInt` | utils.go:62 | a parsed value is always an int64; a failure carries the text that failed |
| `Strconv.ParseFormat` | utils.go:62 | every int64 written with `%v` parses back to itself |
| `Strconv.FormatIntPlain` | server.go:27 | a formatted integer is a minus sign and digits, so it never splits a command word |
| `Records.ParseEach` | server.go:74-83 | the loop returns at most one value per record, and no error exactly when it returns one value per record |
| `Records.ParseLoop` | server.go:74-83 | the imperative loop returns exactly what `ParseEach` specifies |
| `Records.ParseEachStep` | server.go:75-80 | one loop step either stops with the failing record's error or appends its value and continues |
| `Records.ParseEachAt` | server.go:75-80 | every value returned is the parse of the record at its position |
| `Records.ParseEachError` | server.go:76-78 | on failure, the record right after the returned values is the one that failed, with that error |
| `Records.ParseEachAll` | server.go:74-83 | when every record parses, the result is all their values, in record order, and no error |
| `Utils.GetVal` | utils.go:139-141 | the value is the text between the first and the second `=`, and holds no `=` |
| `Utils.GetValOfToken` | utils.go:139-141 | `GetVal(key + "=" + value) == value` when neither part holds `=` |
| `Utils.Tokens` | utils.go:60 | splitting a trimmed line on spaces yields at least one token |
| `Utils.ParseQueryResponse` | utils.go:58-74 | the id is an int64 or -1; success implies the decoded message is "ok" |
| `Utils.ParseStatusLine` | utils.go:58-74 | a status line reads back with the decoded message, success exactly for "ok", and the id or -1 when the id text is not an int64 |
| `Utils.ParseStatusLineInt` | utils.go:58-74 | a status line with an int64 id reads back as exactly that id, message and success |
| `Utils.ParseStatusTokens` | utils.go:60-73 | on any line of at least three tokens, whatever the keys of tokens 1 and 2 and whatever follows them, only their values count: the id is the first value read as an int64 (or -1), the message is the second decoded, and success compares the raw second value with "ok" |
| `Utils.EncodedOk` | utils.go:72 | the escaped message is "ok" exactly when the message is "ok" |
| `Utils.ParseVirtualServer` | utils.go:77-137 | a parsed server has int64 id and port, and an offline one has every counter 0 |
| `Utils.ParseOnline` | utils.go:105-136 | the online branch keeps the id, port and status already read |
| `Utils.ParseOnlineRecord` | utils.go:77-137 | any eight-field record whose values read as a server parses to exactly that server, with autostart read as field 4 equal to "8" |
| `Utils.ParseOfflineRecord` | utils.go:96-103 | any five-field offline record parses to the offline server, with autostart read as field 4 equal to "1" |
| `Utils.ParseOnlineServer` | utils.go:105-136 | an online record as serverlist writes it parses back to its values; autostart comes out as "the query-client count is 8" |
| `Utils.ParseOfflineServer` | utils.go:96-103 | an offline record parses back to its id, port and raw name, with zero counters |
| `Utils.RecordTokens` | utils.go:60 | the tokens of a record are its `key=value` pairs, and GetVal gives each value back |
| `Utils.RecordWords` | servergroups.go:40 | the single-space words of a record are its tokens, and GetVal gives each value back |
| `Ts3.DialAddress` | ts3.go:42-45 | the dialled address holds a `:` and starts with the given address, and equals it exactly when the given address has a `:` |
| `Ts3.DialAddressDefault` | ts3.go:42-45 | an address without a port gets `:10011` |
| `Ts3.DialAddressIdempotent` | ts3.go:43-45 | applying the rule twice adds the port once |
| `Ts3.Frame` | ts3.go:103 | a frame is the command followed by exactly one newline |
| `Ts3.FillBuffer` | ts3.go:100-120 | a successful read returns all 64 KiB: the bytes read, then NULs |
| `Ts3.Send` | ts3.go:98-121 | one Exec returns "" or the full buffer; a closed connection changes nothing; the frame is recorded unless the write failed; one scripted outcome is consumed |
| `Ts3.Conn.Exec` | ts3.go:98-121 | the method's result and new state are exactly `Send` of the old state |
| `Ts3.Conn.Login` | ts3.go:26-29 | Login sends the login command and keeps the connection valid |
| `Ts3.Conn.Disconnect` | ts3.go:74-82 | sends `quit`, then the connection is closed whatever quit returned |
| `Ts3.Connect` | ts3.go:32-71 | a reachable address gives a fresh open connection and no error; an unreachable one gives the dial error for the defaulted address |
| `Ts3.Query` | server.go:27-33 | a command whose whole reply is parsed as its status; success implies message "ok" |
| `Ts3.Command` | server.go:27-33 | the method's status and new state are exactly `Query` of the old state |
| `Ts3.SendWrites` | ts3.go:106 | on a connection whose writes do not fail, each Exec writes exactly its frame |
| `Ts3.ClosedSendsNothing` | ts3.go:106-110 | a closed connection writes nothing and every Exec yields "" |
| `Ts3.LoginCommandWords` | ts3.go:27 | the login command is three words, and decoding words 2 and 3 gives the user name and password back |
| `Ts3.PaddedStatusNeverSucceeds` | ts3.go:120 | a one-line status reply reaches the parser with the NUL padding glued to the message: the id is read, but success is false even for "ok" |
| `Server.Use` | server.go:26-34 | sends `use <sid>` and returns the status of the whole reply |
| `Server.GlobalMessage` | server.go:36-43 | sends `gm msg=<escaped message>` and returns the status of the whole reply |
| `Server.Start` | server.go:45-52 | sends `serverstart sid=<sid>` and returns the status of the whole reply |
| `Server.Stop` | server.go:54-61 | sends `serverstop sid=<sid>` and returns the status of the whole reply |
| `Server.List` | server.go:63-84 | splits the whole reply on `\|` and parses the records in order up to the first failure, returning the servers before it together with the error |
| `Server.ListServers` | server.go:63-84 | at most one server per record of the reply split on `\|`, and no error exactly when every record parses; `Server.List` is proved to return it |
| `Server.UseCommandWords` | server.go:27 | `use` has one argument, which reads back as the id |
| `Server.StartStopCommandWords` | server.go:45-61 | `serverstart` and `serverstop` have one argument, `sid=<id>`, whose value reads back as the id |
| `Server.GlobalMessageWords` | server.go:37 | the global message travels as one word whose value decodes to the message, spaces included |
| `Server.CommandOnStatusReply` | server.go:27-60 | on a reply that is one status line, these commands read the id but never succeed |
| `ServerGroups.ParseGroup` | servergroups.go:40-58 | a parsed group has int64 id and type |
| `ServerGroups.ServerGroupsOf` | servergroups.go:28-62 | no list and no error exactly when the reply has at most two lines; a list comes with no error and one group per record; an error comes with no list |
| `ServerGroups.ServerGroupsValues` | servergroups.go:38-58 | group i of the list is the parse of record i: id from field 0, name decoded from field 1, type from field 2 |
| `ServerGroups.ListServerGroups` | servergroups.go:28-62 | the method returns exactly `ServerGroupsOf` of the reply to `servergrouplist` |
| `ServerGroups.ParseGroupRecord` | servergroups.go:40-58 | a record of well-formed fields parses to the group of fields 0, 1 (decoded) and 2 |
| `ServerGroups.GroupRoundTrip` | servergroups.go:40-58 | a group listed with its name escaped reads back as that group |
| `ServerGroups.ServerGroupAddClient` | servergroups.go:65-74 | sends `servergroupaddclient` and returns the status of the whole reply |
| `ServerGroups.ServerGroupRemoveClient` | servergroups.go:77-85 | sends `servergroupdelclient` and returns the status of the whole reply |
| `ServerGroups.ClientCommandWords` | servergroups.go:65-85 | the client commands are three words, and the `sgid=` and `cldbid=` values read back as the two ids |
| `ServerGroups.IntToken` | servergroups.go:66 | `key=<n>` is one word whose value reads back as `n` |
| `ServerGroups.MemberId` | servergroups.go:105 | an id read from a member record is an int64; `ServerGroups.MemberRecord` proves that `cldbid=<id>` gives the id back |
| `ServerGroups.MemberRecord` | servergroups.go:105 | a member record `cldbid=<id>` gives back the id |
| `ServerGroups.Collect` | servergroups.go:103-122 | at most one user per record, and no error exactly when every record yields a user |
| `ServerGroups.CollectMembers` | servergroups.go:103-122 | the member loop returns exactly `Collect` |
| `ServerGroups.CollectHead` | servergroups.go:104-121 | a non-number stops the loop with its error; otherwise the record's user is looked up and stored with its sessions |
| `ServerGroups.CollectUsers` | servergroups.go:104-121 | user i belongs to record i and carries exactly the active sessions of its database id |
| `ServerGroups.Members` | servergroups.go:88-125 | there is a member list exactly when there is no error |
| `ServerGroups.ServerGroupMembers` | servergroups.go:88-125 | the method returns exactly `Members` |
| `ServerGroups.PokeAll` | servergroups.go:137-141 | poking keeps the connection open or closed as it was |
| `ServerGroups.GroupPoke` | servergroups.go:128-144 | the poke leaves a valid connection |
| `ServerGroups.ServerGroupPoke` | servergroups.go:128-144 | the method returns exactly `GroupPoke` |
| `ServerGroups.PokeUsers` | servergroups.go:137-141 | the outer loop pokes the sessions of all members, member after member |
| `ServerGroups.PokeCommand` | servergroups.go:139 | with the message escaped (no space in it), the poke is three words: `clientpoke`, `clid=<id>` and `msg=<message>`; `ServerGroups.PokeAllSends` proves one such frame goes out per session |
| `ServerGroups.PokeSessions` | servergroups.go:138-140 | the inner loop pokes each session id once, in order |
| `ServerGroups.PokeAllAppend` | servergroups.go:137-141 | poking two id lists in turn is the same as poking their concatenation |
| `ServerGroups.PokeAllSends` | servergroups.go:139 | when writes do not fail, exactly one poke frame is written per id, in order |
| `ServerGroups.GroupPokeSends` | servergroups.go:128-144 | after a successful member lookup, one poke with the message escaped once goes to every session of every member, in order, and nothing else is written; no error |
| `ServerGroups.SessionsOfUsers` | servergroups.go:118-141 | every poked session is an active session of one of the members' database ids |
| `Users.ParseClient` | user.go:32-42 | a parsed clientlist record gives an int64 cldbid and clid |
| `Users.ClientRecord` | user.go:32-42 | a record of well-formed fields gives the cldbid of field 2 and the clid of field 0 |
| `Users.Group` | user.go:31-45 | every record's cldbid is a key, and no key holds an empty list; `Users.GroupLookup` proves each key keeps exactly its clids in record order |
| `Users.GroupSnoc` | user.go:44 | one more record appends its clid to the list of its cldbid |
| `Users.GroupLookup` | user.go:30-45 | under each cldbid the map keeps exactly that client's clids, in record order, and the key is present exactly when there is one |
| `Users.ClidsOfHas` | user.go:44 | every record's clid is kept under its cldbid |
| `Users.ClidsOfKey` | user.go:44 | only cldbids that occur in some record are keys |
| `Users.GroupClients` | user.go:31-45 | the in-place map loop builds exactly the grouping of the records parsed before the first failure, and returns that failure |
| `Users.ActiveClients` | user.go:22-48 | the method returns exactly `ActiveClientsOf` of the reply to `clientlist` |
| `Users.ActiveClientsOf` | user.go:22-48 | a reply without records gives the empty map and no error, and no cldbid is ever mapped to an empty list; `Users.ActiveClientsComplete` and `Users.ActiveClientsTotal` state the contents |
| `Users.ActiveClientsComplete` | user.go:30-46 | when the reply has records, the map holds exactly the clids of each cldbid in record order, and its keys are exactly the cldbids that occur |
| `Users.ActiveClientsTotal` | user.go:30-46 | when the loop completes, the lists together hold as many clids as the reply has records |
| `Users.TotalSessionsRemove` | user.go:44 | the total count of clids does not depend on the order the ids are counted in |
| `Users.GroupTotal` | user.go:44 | the grouped map holds one clid per record |
| `Users.ParseUserInfo` | user.go:51-67 | no user exactly when the reply has no records; a user has the argument as cldbid and no sessions |
| `Users.UserInfoRecord` | user.go:59-66 | the user comes from words 0, 4 and 13 as they stand, with word 1 decoded as the nickname |
| `Users.FindUser` | user.go:51-67 | a user found has the database id that was asked for |
| `Users.FindUserByDbId` | user.go:51-67 | the method returns exactly `FindUser` |
| `Users.CustomSearchCommand` | user.go:72-75 | the search command is three words, `customsearch`, `ident=<ident>` and `pattern=<value>`, with every space in the ident and the value turned into `_` |
| `Users.SearchReply` | user.go:80-92 | an error comes with the empty user; no user at all only when the reply has records |
| `Users.SearchReplyNone` | user.go:80-84 | a reply without records gives the status of its second-to-last line and the empty user |
| `Users.SearchReplyMiss` | user.go:86-89 | an unreadable id gives the empty user and the error, and no lookup |
| `Users.SearchReplyHit` | user.go:86-92 | a readable id leads to the lookup of that id, and its user is returned with no error even when it is missing |
| `Users.ReadSearchReply` | user.go:80-92 | the method returns exactly `SearchReply` |
| `Users.FindUserByCustomSearch` | user.go:71-93 | the method returns exactly `CustomSearch` |
| `Users.CustomSearchReadsStatus` | user.go:80-81 | on a record and a status line, each ended by `\n\r` and padded as Exec returns them, the status line is read intact |
| `PrivilegeKeys.ReadEntries` | privilegekey.go:131-135 | each entry is read on its own, in order |
| `PrivilegeKeys.ParseCustomSets` | privilegekey.go:126-138 | the in-place map loop returns exactly `CustomSets` |
| `PrivilegeKeys.CustomSets` | privilegekey.go:126-138 | every name read from an entry of the custom set is a key of the map; `PrivilegeKeys.CustomSetRoundTrip` proves a written set reads back as its map |
| `PrivilegeKeys.AssignKeys` | privilegekey.go:134 | a name is stored exactly when some entry carries it |
| `PrivilegeKeys.AssignLast` | privilegekey.go:134 | the value stored under a name is that of the last entry carrying it |
| `PrivilegeKeys.AssignOrder` | privilegekey.go:28 | storing a map's entries in any visiting order rebuilds the map |
| `PrivilegeKeys.PrivilegeKeyOf` | privilegekey.go:87-124 | an error comes only with the empty key, and a server key has channel 0 |
| `PrivilegeKeys.ParsePrivilegeKey` | privilegekey.go:87-124 | the method returns exactly `PrivilegeKeyOf` |
| `PrivilegeKeys.BareTokenKey` | privilegekey.go:88-93 | a one-token record names the key and nothing else |
| `PrivilegeKeys.ServerKeyRecord` | privilegekey.go:94-120 | a type-0 key reads back with group from token 2, channel 0, description decoded and the custom set read |
| `PrivilegeKeys.ChannelKeyRecord` | privilegekey.go:103-120 | any other type reads back with channel from token 2 and group from token 3 |
| `PrivilegeKeys.KeyIdErrors` | privilegekey.go:97-108 | an unreadable token 2 gives the empty key either way, but only a server key reports the error |
| `PrivilegeKeys.KeyList` | privilegekey.go:66-85 | keys come exactly when there is no error, one per record of the first line; the status is always the parse of the second line alone, failure or not |
| `PrivilegeKeys.KeyListStatus` | privilegekey.go:66-85 | on a line of records and a status line, each ended by `\n\r` and padded as Exec returns them, the status is read intact |
| `PrivilegeKeys.Tokenslist` | privilegekey.go:66-85 | the method returns exactly `KeyList` |
| `PrivilegeKeys.ParseKeys` | privilegekey.go:75-82 | the key loop returns exactly `ParseEach` of `ParsePrivilegeKey` over the records |
| `PrivilegeKeys.KeyListValues` | privilegekey.go:75-82 | every key returned is the parse of the record at its position |
| `PrivilegeKeys.TokensDelete` | privilegekey.go:55-63 | sends `privilegekeydelete token=<token>` unescaped and returns the status of the whole reply |
| `PrivilegeKeys.DeleteCommandWords` | privilegekey.go:57 | the delete command is two words, and the token reads back |
| `PrivilegeKeys.EntryTexts` | privilegekey.go:29-33 | one entry per field, in visiting order |
| `PrivilegeKeys.JoinEntries` | privilegekey.go:28-35 | the loop accumulates every entry preceded by `\p` |
| `PrivilegeKeys.PrefixedJoin` | privilegekey.go:34 | the accumulated text is one `\p` followed by the entries joined on `\p` |
| `PrivilegeKeys.TrimEntries` | privilegekey.go:37 | TrimLeft with cutset `\p` removes exactly that leading separator |
| `PrivilegeKeys.Underscores` | privilegekey.go:30-31 | replacing spaces with `_` and back restores a field with no `_` |
| `PrivilegeKeys.EntryRoundTrip` | privilegekey.go:29-33 | an entry splits on `\s` into its two halves and reads back as its field |
| `PrivilegeKeys.SetKeyAbsent` | privilegekey.go:129 | removing `token_customset=` cannot cut into an entry |
| `PrivilegeKeys.SetTextParts` | privilegekey.go:129-130 | a written custom set splits on `\p` back into its entries |
| `PrivilegeKeys.CustomSetRoundTrip` | privilegekey.go:126-138 | the custom set written from a map is read back as that map, whatever the visiting order |
| `PrivilegeKeys.TokensAddWords` | privilegekey.go:21-39 | the tokenadd command is the five fixed words with group id and escaped description, plus a sixth holding the entries joined on `\p` exactly when there are custom fields |
| `PrivilegeKeys.TokensAddCommand` | privilegekey.go:21-39 | the command starts with the five fixed words carrying the group id and the escaped description, and is nothing more exactly when there are no custom fields; `PrivilegeKeys.TokensAddWords` states the sixth word |
| `PrivilegeKeys.TokenAdded` | privilegekey.go:20-52 | the connection is left as the one Exec of the tokenadd command leaves it, and a successful status has message "ok" |
| `PrivilegeKeys.TokensAdd` | privilegekey.go:20-52 | the method returns exactly `TokenAdded` |
| `PrivilegeKeys.TokensAddReply` | privilegekey.go:41-51 | on a `token=<key>` line and a status line, each ended by `\n\r`, the key has only its token set and the status is read intact |
| `Ts3Http.GetOf` | ts3Http.go:55-92 | a status comes exactly when there is no error, and only when the request went through |
| `Ts3Http.IsSuccess` | ts3Http.go:28-30 | the client's own code -1 always counts as success; any other code succeeds exactly when the message is "ok" |
| `Ts3Http.RequestUrl` | ts3Http.go:56-61 | the URL starts with `<scheme>://<baseUrl>/` and ends with the path; a global command has nothing between them, any other has exactly the selected server's id and `/`; `Ts3Http.GetOf` fetches it |
| `Ts3Http.RequestUrlServer` | ts3Http.go:56-61 | the segment between base and path of a server command reads back through `ParseInt` as the selected server |
| `Ts3Http.HttpConfig.constructor` | ts3Http.go:11-16 | no key or URL, virtual server 1, scheme http |
| `Ts3Http.HttpConfig.ConfigureHttp` | ts3Http.go:38-47 | stores key and URL, sets https exactly when asked, and leaves the virtual server alone |
| `Ts3Http.HttpConfig.SelectVirtualServer` | ts3Http.go:50-52 | changes the virtual server and nothing else |
| `Ts3Http.HttpConfig.Get` | ts3Http.go:55-92 | the method returns exactly `GetOf` of the current settings |
| `Ts3Http.AddAll` | ts3Http.go:68-73 | the parameter loop builds exactly `Params` |
| `Ts3Http.Params` | ts3Http.go:68-73 | every pair's key is present and no key holds an empty list; `Ts3Http.ParamsValues` proves each key carries exactly its pairs' values in order |
| `Ts3Http.QueryOf` | ts3Http.go:68-73 | without a query list the parameters are empty; otherwise every key carries exactly the values the first list gives it, in order, and the other lists are ignored |
| `Ts3Http.ParamsValues` | ts3Http.go:70-72 | every key carries exactly the values of its pairs, in order, and is present exactly when it has one |
| `Ts3Http.TwoParams` | ts3Http.go:70-72 | pairs with distinct keys give one value per key |
| `Ts3Http.ThreeParams` | ts3Http.go:70-72 | three pairs with distinct keys give one value per key |
| `ChannelGroups.GroupsOf` | channelgroups.go:15-25 | groups come exactly when the request neither erred nor reported failure |
| `ChannelGroups.ListChannelGroups` | channelgroups.go:15-25 | the method returns exactly `GroupsOf` |
| `ChannelGroups.SetOf` | channelgroups.go:28-41 | the status is present exactly when there is no error |
| `ChannelGroups.SetChannelGroup` | channelgroups.go:28-41 | the method returns exactly `SetOf` |
| `ChannelGroups.SetRequest` | channelgroups.go:29-33 | the parameters are cgid, cid and cldbid, each bound to its own key |
| `ChannelGroups.ResetChannelGroup` | channelgroups.go:45-61 | the scan with `break` returns exactly `ResetOf` |
| `ChannelGroups.ResetOf` | channelgroups.go:45-61 | the status is present exactly when there is no error |
| `ChannelGroups.GuestId` | channelgroups.go:52-58 | a non-zero id is that of some group named "Guest" of the regular type; `ChannelGroups.GuestIdFirst` and `ChannelGroups.GuestIdNone` pin down which |
| `ChannelGroups.GuestIdFirst` | channelgroups.go:52-58 | the id chosen is that of the first group named exactly "Guest" of the regular type |
| `ChannelGroups.GuestIdNone` | channelgroups.go:52-60 | without such a group the id is 0 |
| `ChannelGroups.MembersOf` | channelgroups.go:64-107 | members come exactly when neither stage failed |
| `ChannelGroups.ChannelGroupMembers` | channelgroups.go:64-107 | the method returns exactly `MembersOf` |
| `ChannelGroups.MembersRequest` | channelgroups.go:65-68 | the query binds cid and cgid to one value each |
| `ChannelGroups.MembersStatus` | channelgroups.go:70-106 | members come with the member-list status; when ActiveClients fails, its status and error are returned instead |
| `ChannelGroups.FoundAppend` | channelgroups.go:94-104 | the member filter keeps order across concatenation |
| `ChannelGroups.Found` | channelgroups.go:94-104 | never more members than ids; `ChannelGroups.FoundFrom` and `ChannelGroups.FoundAll` say which ids they come from |
| `ChannelGroups.FoundOne` | channelgroups.go:95-103 | one id gives its user with that id's sessions, or nothing when the lookup errs |
| `ChannelGroups.FoundAll` | channelgroups.go:94-104 | when every lookup succeeds, member i is the user of id i with its sessions |
| `ChannelGroups.FoundFrom` | channelgroups.go:94-104 | there are never more members than ids, and each comes from an id whose lookup succeeded |
| `ChannelGroups.ChannelGroupPoke` | channelgroups.go:110-135 | the nested counting loops return exactly `PokeOf` |
| `ChannelGroups.PokeOfValue` | channelgroups.go:117-134 | once members are fetched, the result is code -1 with the message of all sessions attempted and the failed ones counted, and no error |
| `ChannelGroups.FailedPokesBound` | channelgroups.go:120-130 | no more pokes fail than are attempted, and none fails exactly when every poke succeeds |
| `ChannelGroups.PokePercent` | channelgroups.go:133 | the integer percentage is 100 with no failure and 0 as soon as one poke fails |
| `ChannelGroups.PokeMessage` | channelgroups.go:133 | when no more pokes fail than were attempted, the message says 100% with no failure and 0% otherwise, followed by the failure count |
| `ChannelGroups.PokeOf` | channelgroups.go:110-135 | the error is that of the member lookup, and once members are fetched the status reads as a success; `ChannelGroups.PokeOfValue` gives the whole result |
| `ChannelGroups.PokeReport` | channelgroups.go:110-135 | the poke's status reads as a success however many pokes failed, its error is nil, and its message says 100% or 0% and the failure count |

## Left out

- Sockets, dialling, timeouts, logging and the liveness check `IsConnected` (ts3.go:48-68, 84-95) are left out. They are I/O. The dial is a `reachable` parameter, and the greeting read after it is discarded, as in the source.
- `Exec`'s error result is left out, with the error branches that test it. `Exec` always returns a nil error (ts3.go:109, 116), so every `if err != nil` after an `Exec` is dead code.
- For the same reason, `Server.Stop` is modelled like `Use`, `GlobalMessage` and `Start`. Its dropped error is only visible on a path that never runs.
- `fmt`'s `%` verbs in user text are not interpreted. `TokensAdd` passes the built command to `Exec` as the format string, so the model requires that the command holds no `%`.
- HTTP request execution, `net/url` parsing and query encoding, and JSON decoding are oracles: `fetch` and the `Backend` decoders. `url.Parse` failures are one case of `fetch`'s transport error. `Params` models the `url.Values` map before `Encode`.
- `i64tostr` is not part of this model. Its arguments are taken as written in decimal, like `%v`.
- The HTTP helpers `UserFindByDbId`, `UserPoke` and the three-result `ActiveClients` are not part of this model. They are the `Backend` oracles. `UserPoke`'s outcome is a fixed function of session id and message.
- `User` in the HTTP variant is user.go's `User`.
- logger.go and main.go are left out. They are a coloured log sink and a development driver.
- Go panics become preconditions: an index out of range, `GetVal` on text without `=`, a nil user, and integer division by zero in `ChannelGroupPoke`. Each precondition is a `...Safe` predicate. In a loop, the predicate covers the records the loop reaches before its first failure.
- `Utils.ParseVirtualServer`: on a parse failure the source returns a zero `VirtualServer` next to the error. The model returns only the error (`Result.Err`), because every caller discards the value on error.
- Zero values: `PrivilegeKeys.PrivilegeKeyOf` returns the empty `PrivilegeKey{}` as `EmptyKey`, and `Users.SearchReply` returns `FindUserByCustomSearch`'s `&User{}` as `Some(EmptyUser)`. A nil `*User` is `None`: `Users.ParseUserInfo` gives it for a reply without records.
- Go's map iteration order in `TokensAdd` is unspecified. The model takes it as a parameter: any order that visits every key once.
- servergroups.go:132 passes an undefined `gid`, which does not compile. The model uses the parameter `sgid`.
- Integer widths: ids in replies are parsed as int64 by `ParseInt`. Ids the client formats are unbounded integers, because `%v` prints any `int` or `int64` exactly.
- `Conn` records only frames. The reply text a closed connection would give is always "".
- Unicode: strings are sequences of characters. `unicode.IsSpace` is modelled over the Unicode White_Space set.

## Behaviour worth knowing

These behaviours of the code are modelled as written.

- **Status with a padded reply.** `Exec` returns the whole 64 KiB buffer. A reply that is just a status line therefore reaches `ParseQueryResponse` with its line break and NUL padding glued to the message, so success is false even for "ok" (`Ts3.PaddedStatusNeverSucceeds`). Commands that parse only a line of the reply (`FindUserByCustomSearch`, `TokensAdd`) read the status intact.
- **Empty lists.** `List` splits the entire reply on `|`, status line and padding included, so an empty server list still yields one record: the status line. Reading it as a server panics in `GetVal`, and `ListSafe` excludes that case. `ActiveClients` returns early when the reply has no more than two lines.
- **`GetVal`** returns the text between the first and the second `=`, not everything after the first one.
- **Online autostart.** In `ParseVirtualServer`, autostart is read from token 4 compared with "8". For an online record, token 4 is the query-client count.
- **Poke percentage.** `ChannelGroupPoke` computes its percentage with integer division before the multiplication, so two of three successes report 0%. Its status code is -1, which `IsSuccess` treats as success. When `ChannelGroupMembers` fails, its error is returned; once the members are fetched, the error is nil because the loop's `err` shadows the outer one. The same shadowing makes `ChannelGroupMembers` return a nil error after skipping lookups that failed.
- **Custom-set key names.** `TokensAdd` writes the custom set under `tokencustomset=`, but `parseCustomSets` removes `token_customset=`, the name the server lists keys under. The round trip is stated for the listed form.
- **Custom-set separator.** `TrimLeft(str, "\\p")` treats `\p` as a cutset of two characters. It is safe because every entry starts with `i`.
- **Channel keys.** A channel key reads its channel from `token_id1` and its group from `token_id2`. A number there that fails to parse gives the empty key with no error, while a server key reports the error.
- **Failed custom search.** `FindUserByCustomSearch` returns a nil error even when the following lookup fails.
