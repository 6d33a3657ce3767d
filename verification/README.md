# maubot-fedora command logic in Dafny

This project models the decision logic of the maubot-fedora chat bot, a
plugin that answers Matrix commands from the Fedora Accounts directory
(FASJSON), the Pagure issue tracker and the package registry. The model is
built from `fedora/__init__.py`.

The network is not modelled. Every answer it could give is an input:

- The directory client is `Option<Client>`. `None` is the client that failed
  to build at start-up. A `Client` is a record of oracles, one per
  operation: `getUser`, `search`, `listGroupMembers` and
  `listGroupSponsors`. Each oracle maps its argument to a result, an API
  error with an HTTP code, or the client library's setup error.
- An HTTP answer is a status, a reason phrase, and the decoded JSON body.
  The body is `None` when it does not decode.

Each lookup returns its outcome together with the list of directory calls it
made, so "no call at all" and "no search" are things the model can state.
An outcome is a value, a message for the chat (the source's
`InfoGatherError`), or a crash (a Python exception that escapes the
handler).

Modules:

- `Strings`: Python's `str.split` with one separator character, `join`,
  and `str(n)`, with their round trips.
- `MatrixIds`: the regular expressions `@.*:.*` (routing) and
  `@(.*):(.*)` (splitting). Here `.` does not match a newline, and the
  split is greedy.
- `Directory`: the client, the call log, outcomes, and the
  `catch_generic_fasjson_errors` guard.
- `Identity`: the identity resolver `_get_fasuser`.
- `Groups`: `_get_group_members` and `_get_group_sponsors`.
- `Pagure`: `_get_pagure_issue`.
- `Replies`: the reply each command sends.
- `Help`: the `help` command over a given list of plugin members.

The resolver takes a `Revision`. `AsWritten` is the code as it stands.
`Corrected` repairs the two defects listed under Findings. Everything
built on the resolver (`HelloCommand`, `UserCommand`) takes the revision as
a parameter.

Some behaviour of the code is easy to misread, and the model follows the
code in each case:

- The argument is split on single spaces, not on whitespace. A doubled
  or trailing space therefore also gives "one username at a time".
- A token without the `@…:…` shape goes straight to a username lookup.
  It is never reported as a malformed Matrix id.
- An API error other than 404 from a direct user or group lookup leaves the
  result variable unbound, and the handler crashes. An API error from the
  search is not caught at all. Neither becomes a message.
- `response.json()` runs before the status check. A Pagure answer whose
  body does not decode therefore crashes, whatever its status.
- `help NAME` compares NAME with attribute names. `help help` finds
  nothing, because the handler's attribute is `bothelp`. A name that
  matches an attribute which is not a command raises AttributeError.

## Model

| member | source | states |
|---|---|---|
| Strings.Split | fedora/__init__.py:113 | `split(" ")` always gives at least one piece, and no piece holds the separator. There is more than one piece exactly when the string holds the separator. |
| Strings.JoinSplit | fedora/__init__.py:113 | Joining the pieces of a split with the same separator gives the original argument back. `Strings.Join` models Python's `sep.join`. |
| Strings.SplitJoin | fedora/__init__.py:148 | Splitting a `/`-join gives the pieces back when no piece holds the separator. |
| Strings.JoinEmpty | fedora/__init__.py:394-396 | A `", "`-join is empty exactly when the list is empty or is one empty name. |
| Strings.JoinContainsPieces | fedora/__init__.py:84 | Every piece of a join occurs in the joined text. |
| Strings.NatToString | fedora/__init__.py:86 | `str(n)` is a non-empty string of decimal digits with no leading zero. |
| Strings.NatToStringRoundTrip | fedora/__init__.py:86 | Reading the digits of `str(n)` back gives `n`. |
| MatrixIds.LineEnd | fedora/__init__.py:72 | Gives the next newline at or after a position, or the end of the string; no newline lies in between. This bounds what `.` can match. |
| MatrixIds.FirstMatch | fedora/__init__.py:72 | Gives the leftmost position where `@(.*):(.*)` matches; no earlier position matches. |
| MatrixIds.ParseMatrixId | fedora/__init__.py:72 | `findall(...)[0]` exists exactly when some position matches. The split it gives is the greedy one: the local part runs to the last colon of the line, and the server runs to the end of the line and holds no colon. |
| MatrixIds.SplitsAsUnique | fedora/__init__.py:72 | At a given `@`, only one local-part/server split satisfies the greedy shape. |
| MatrixIds.ShapeIffParses | fedora/__init__.py:118 | The routing test `re.search("@.*:.*")` (`MatrixIds.HasMatrixShape`) accepts a token exactly when the line-72 split succeeds. So the line-74 message can never be reached from this route. |
| MatrixIds.RoutedTokenSplit | fedora/__init__.py:118-119 | For a routed one-line token, the local part is the text between the first `@` and the last `:`, and the server is the text after the last `:`. |
| Directory.Settle | fedora/__init__.py:46-50 | A setup error raised by any call becomes the "failed to connect to FASJSON: **…**" message. Every other outcome passes through, and the calls made are kept. |
| Directory.Guard | fedora/__init__.py:41-54 | With no client, the result is the "failed to connect to FASJSON on startup" message, and no directory call is made. |
| Directory.StartupDistinctFromSetup | fedora/__init__.py:45-50 | The start-up message never equals a mid-run setup message. |
| Directory.Fetch | fedora/__init__.py:60-65 | A directory call whose `except` handles only 404: a result is kept, and 404 gives the caller's not-found message. Any other API error is a crash on the named unbound variable. A setup error propagates with its text kept. Exactly that one call is logged. |
| Identity.PersonByUsername | fedora/__init__.py:58-65 | A direct lookup makes exactly one `get_user` call. A record it returns is the result, and any user returned came from it. 404 gives the "does not exist" message, and only 404 does. Any other API error is the unbound-`person` crash. A setup error propagates with its text. |
| Identity.UsersByMatrixId | fedora/__init__.py:67-92 | An id that does not split makes no call. Otherwise at most one call is made, and a returned user is exactly what that call returned. |
| Identity.Lookup | fedora/__init__.py:94-123 | The resolver body makes at most one call. A returned user comes from the single call made. |
| Identity.Resolve | fedora/__init__.py:56-123 | Without a client, the start-up message and no call. Otherwise at most one call. A user is returned only when one `get_user` returned it, or one search returned exactly that user and no other. |
| Identity.EmptyArgumentIsSender | fedora/__init__.py:95-96 | An empty argument resolves exactly as the sender's own id would. |
| Identity.ManyMentionsRefused | fedora/__init__.py:100-109 | Two or more mentions give "one username at a time", whatever the text, with no call. |
| Identity.SingleMentionWins | fedora/__init__.py:110-111 | With one mention, that mention is resolved as a Matrix id, and the argument text plays no part. |
| Identity.SpaceRefused | fedora/__init__.py:113-115 | When the message has no mention, an argument holding a space gives "one username at a time" with no call. |
| Identity.PlainTokenLookup | fedora/__init__.py:121-123 | A plain token (no space, no Matrix shape) makes one `get_user` call. The guarded result is the returned record, the "does not exist" message on 404, the unbound-`person` crash on another API error, or the connection message carrying the setup error's text. |
| Identity.TokenRouting | fedora/__init__.py:117-123 | A Matrix-shaped token goes to the Matrix lookup, and its split succeeds. Every other token gets a direct username lookup. |
| Identity.OwnServerFastPath | fedora/__init__.py:76-78 | On `fedora.im` the local part is looked up as a username. The only call is `get_user`, and no search is made. |
| Identity.OtherServerSearch | fedora/__init__.py:80-81 | On any other server exactly one search is made, keyed `matrix://SERVER/LOCALPART`. |
| Identity.Searched | fedora/__init__.py:80-92 | What a search answer becomes: only an answer holding exactly one user yields a user, and it is that user. Only a setup error reaches the guard as a setup failure, and it keeps the error's text. |
| Identity.SearchCardinality | fedora/__init__.py:83-92 | No result gives "No Fedora Accounts users have …". One result is that user. Several results crash as written; repaired, they give the counted list. |
| Identity.SearchApiErrorUncaught | fedora/__init__.py:80-81 | An API error from the search is not caught, whatever its code (404 included): the lookup crashes with it. |
| Identity.AmbiguousNamesEveryone | fedora/__init__.py:83-88 | The repaired ambiguity message contains every candidate's username. |
| Identity.OtherApiErrorCrashes | fedora/__init__.py:60-65 | A direct lookup answered with a non-404 API error crashes on the unbound `person`. |
| Identity.UnparsableMentionCrashes | fedora/__init__.py:71-74 | As written, a mention that does not split crashes with IndexError, and no call is made. |
| Identity.RoomMentionCrashes | fedora/__init__.py:71-74 | A mention of the room `#fedora:fedora.im` crashes the resolver as written. |
| Identity.UnparsableMentionReported | fedora/__init__.py:71-74 | Repaired, a mention that does not split gives the "does not look like a valid matrix user ID" message, with no call. |
| Identity.TwoClaimantsCrash | fedora/__init__.py:83-88 | As written, two users holding `@alice:matrix.org` make the resolver crash with TypeError after one search. |
| Identity.TwoClaimantsListed | fedora/__init__.py:83-88 | Repaired, the same two users give the ambiguity message, and it names both. |
| Groups.GroupLookup | fedora/__init__.py:125-145 | `Groups.GroupMembers` and `Groups.GroupSponsors` are this lookup with the operation fixed, and `Groups.GroupFetch` is the body under the guard. Without a client, the start-up message and no call. Otherwise one listing call; its result is returned unchanged and 404 gives "group … does not exist". A crash happens exactly on other API errors, and a setup error gives its message. |
| Groups.GroupMissingIsNotConnection | fedora/__init__.py:132 | The missing-group message differs from both connection messages. |
| Pagure.EndpointSegments | fedora/__init__.py:148 | For the URL `Pagure.Endpoint` builds: the URL starts with the base. When no `/` occurs in the namespace, the project or the id, the rest after the base splits back into namespace, project, `issue` and id. A project typed as `fork/u/p` breaks this. |
| Pagure.EmptyNamespaceKeepsSlash | fedora/__init__.py:148 | An empty namespace still leaves a `/` between the base and the project. |
| Pagure.PagureIssue | fedora/__init__.py:147-163 | An undecodable body is a crash, whatever the status. A decoded 200 body is returned unchanged. Every other decoded answer is a message: 404s by error code, the rest by status and reason. |
| Pagure.NotFoundCases | fedora/__init__.py:152-160 | In `Pagure.NotFoundMessage`, `ENOPROJECT` gives "Project P not found". `ENOISSUE` gives "Issue #N not found on P project". Any other code gives "Issue querying Pagure: CODE: ERROR". |
| Replies.Respond | fedora/__init__.py:295-299 | A found value is sent formatted, and a lookup message is sent as it stands. A crash sends nothing. |
| Replies.UserLinkInjective | fedora/__init__.py:34-39 | For `Replies.UserLink` (`_userlink`): under one accounts base, different usernames get different profile links. |
| Replies.MembersThreshold | fedora/__init__.py:254-259 | For `Replies.MembersText`: above 200 members, only the count is given, and it reads back as the count. At 200 or fewer, every member's link is in the reply. |
| Replies.MembersCommand | fedora/__init__.py:235-259 | An empty group name gets the usage text with no call. With a name and no client, the start-up message and no call. With a name and a client, one listing call is made, and a found group gets the members reply `Replies.MembersText`. 404 gives "Sorry, but group 'G' does not exist". Any lookup message is sent unchanged, and the command crashes exactly when the lookup does. |
| Replies.SponsorsCommand | fedora/__init__.py:263-278 | An empty group name gets the usage text with no call. With a name and no client, the start-up message and no call. With a name and a client, one sponsors call is made, and a found group gets the full sponsors list. 404 gives "Sorry, but group 'G' does not exist". Any lookup message is sent unchanged, and the command crashes exactly when the lookup does. |
| Replies.SponsorsListed | fedora/__init__.py:276-278 | Every sponsor's link is in the sponsors reply `Replies.SponsorsText`. |
| Replies.HelloPronouns | fedora/__init__.py:301-303 | The `Replies.HelloText` line starts with "name (username)". It is exactly that when the pronoun list is empty; any pronoun list, even `[""]`, makes " - " follow it directly. |
| Replies.HelloListsPronouns | fedora/__init__.py:302-303 | Every pronoun of the user is in the `hello` line. |
| Replies.HelloCommand | fedora/__init__.py:284-304 | Makes exactly the resolver's calls, so at most one. A found user is sent `Replies.HelloText` of that user. A lookup message is sent unchanged. The command crashes exactly when the lookup does. So without a client it sends the start-up message, and with several mentions it sends "one username at a time". |
| Replies.UserTextListsKeys | fedora/__init__.py:327-335 | Every GPG key id of the user is in the `user` reply `Replies.UserText`. |
| Replies.UserCommand | fedora/__init__.py:310-335 | Makes exactly the resolver's calls, so at most one. A found user is sent `Replies.UserText` of that user. A lookup message is sent unchanged. The command crashes exactly when the lookup does. So without a client it sends the start-up message, and with several mentions it sends "one username at a time". |
| Replies.SectionPresence | fedora/__init__.py:398-403 | A role's section (`Replies.Section`) is left out exactly when its list is empty or is one empty name. |
| Replies.WhoOwnsEmpty | fedora/__init__.py:394-405 | The `whoowns` reply `Replies.WhoOwnsText` is empty exactly when every role's list is empty or is one empty name. A list such as `["", ""]` still gives a section, because its join is `", "`. |
| Replies.SectionListsNames | fedora/__init__.py:394-403 | Every name of a role that has a section is in that section. |
| Replies.WhoOwnsListsEveryone | fedora/__init__.py:394-405 | Every name of every role (owner, admin, commit) is in the `whoowns` reply. |
| Replies.WhoOwnsCommand | fedora/__init__.py:389-407 | 404 gives "Package P not found.". A body without the access lists crashes. Otherwise the reply lists the sections in the order owner, admin, commit. |
| Replies.IssueCommand | fedora/__init__.py:412-429 | Fetches the URL with an empty namespace. It crashes exactly when the body does not decode, and a 200 answer gets the "[P #N](URL): TITLE" summary, `Replies.IssueText`. A 404 gets the error-code message, and another status gets "Issue querying Pagure: STATUS: REASON". Every lookup message is sent unchanged. |
| Help.RenderArguments | fedora/__init__.py:211-216 | The loop builds one space followed by `<name>` or `[name]` for each argument in order, the same text as the joined form `Help.ArgumentsText`. |
| Help.ArgumentsRoundTrip | fedora/__init__.py:211-216 | When no argument name holds a space, the rendered argument string reads back as the same argument names with the same required flags. |
| Help.ListingHasEveryCommand | fedora/__init__.py:206-221 | Every command handler's line (`Help.ListingLine`) is in the listing (`Help.Listing`). |
| Help.FindMember | fedora/__init__.py:192-193 | Gives the first member whose attribute name or alias is the requested name; no earlier member answers. |
| Help.CommandHelp | fedora/__init__.py:190-204 | No member answering gives "`NAME` is not a valid command". A non-command member crashes with AttributeError. A command gives its full help, `Help.DetailText`. |
| Help.BotHelp | fedora/__init__.py:185-221 | No argument gives the listing; an argument gives that command's help. |
| Help.AliasAnswersLikeName | fedora/__init__.py:193-199 | For the same command member, the help text (`Help.DetailText`) asked for by an alias equals the text asked for by its attribute name. At the command level, an earlier member may answer the alias first. |
| Help.LookupByAttributeOnly | fedora/__init__.py:185-193 | A name that is no member's attribute and no alias is not found, even when a command is called by that name. |

## Left out

- HTTP and transport (`httpx`, `requests`) are not modelled. Each answer is an input: an oracle from URL to response for Pagure, and the response itself for the package registry.
- The package registry URL (lines 387-388) is left out. Only the answer to that request is modelled.
- The `fasjson_client` library is not modelled. Client construction in `start` (lines 165-176) is reduced to the optional client handle, and its log line is dropped.
- A directory answer is a result, an API error or a setup error. Any other exception from `fasjson_client` is not modelled, such as a connection error from `requests`; in the source it would escape the handler and crash the command. The if-and-only-if crash clauses, such as those of `Groups.GroupLookup`, hold within these three kinds of answer.
- async/await, the maubot command decorators and `evt.respond` versus `evt.reply` are framework plumbing. Only the text sent, or the crash, is modelled.
- `inspect.getmembers` (lines 192 and 208) is replaced by a given list of members in name order. The plugin's full member list, including members inherited from the framework, is not enumerated.
- `__mb_full_help__`, `__mb_help__` and the docstrings come from the framework. They are inputs.
- The mention pattern of lines 104-107 is not modelled as a regex over HTML. Its list of extracted ids is an input; the list is empty when the message has no formatted body.
- `localtime` (lines 337-373) is left out, because it depends on the wall clock and the pytz timezone data.
- `version` (lines 223-231) is left out; its one line depends on loader metadata.
- `Config.do_update`, `stop`, `get_config_class` and logging are left out.
- JSON values are modelled as strings. A number or a `null` in `title`, `full_url`, `error_code` or `error` is not modelled, apart from a missing key, which prints as "None". A decoded body is modelled as a JSON object. A body that decodes to a list or a scalar makes `json.get` (line 153) or `issue.get` (line 427) raise AttributeError, and that is not modelled.
- User records always carry every field. The KeyError from a record without `human_name` (line 301) or `gpgkeyids` (line 334) is not modelled. A `None` pronoun list is modelled as the empty list; Python treats the two alike.
- Replies.WhoOwnsCommand: does not separate a body that fails to decode from one without `access_users`. Both are the same crash.

## Findings

| source | as written | input that shows it | evidently intended | confidence | as-written member | corrected member |
|---|---|---|---|---|---|---|
| fedora/__init__.py:73 | `except ValueError or IndexError` evaluates to `except ValueError`. The IndexError from `[0]` on an empty match list escapes, so the handler crashes. | A single mention linking a room alias, `https://matrix.to/#/#fedora:fedora.im`, which extracts as `#fedora:fedora.im`. | Reply "Sorry, #fedora:fedora.im does not look like a valid matrix user ID (e.g. @username:homeserver.com )". | high; not executed | Identity.RoomMentionCrashes | Identity.UnparsableMentionReported |
| fedora/__init__.py:84 | `NL.join(name for name in searchresult)` joins user records. Line 301 reads the same results as records by key, and `str.join` raises TypeError on non-strings. | Two directory users whose Matrix id is `@alice:matrix.org`, looked up as `!hello @alice:matrix.org`. | The count followed by each candidate's username, one per line. | medium (assumes `search` yields records, as line 301 implies); not executed | Identity.TwoClaimantsCrash | Identity.TwoClaimantsListed |
