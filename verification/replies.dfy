/**
 The replies the commands send (fedora/__init__.py:235-429): a command runs
 its lookup, and sends either the formatted result or the lookup's message;
 a crash escapes the handler and nothing is sent.
 */
module Replies {
  import opened Wrappers
  import opened Strings
  import opened Directory
  import opened Identity
  import opened Groups
  import opened Pagure

  datatype Response = Sent(text: string) | Crashed(fault: Fault)

  /** A command's response together with the directory calls its lookup made. */
  datatype Reply = Reply(response: Response, calls: seq<Call>)

  /** The reply for a lookup's outcome: the value formatted, the message as it stands, or the crash. */
  function Respond<T>(o: Outcome<T>, format: T -> string): (r: Response)
    ensures o.Ok? ==> r == Sent(format(o.value))
    ensures o.Info? ==> r == Sent(o.message)
    ensures o.Crash? ==> r == Crashed(o.fault)
  {
    match o
    case Ok(v) => Sent(format(v))
    case Info(m) => Sent(m)
    case Crash(f) => Crashed(f)
  }

  /** `_userlink` (line 39): a Markdown link to the user's accounts page. */
  function UserLink(accountsBase: string, username: string): string
  {
    "[" + username + "](" + accountsBase + "user/" + username + ")"
  }

  /** Different usernames get different links under the same accounts base. */
  lemma UserLinkInjective(accountsBase: string, a: string, b: string)
    requires UserLink(accountsBase, a) == UserLink(accountsBase, b)
    ensures a == b
  {
    var la, lb := UserLink(accountsBase, a), UserLink(accountsBase, b);
    assert |la| == 2 * |a| + |accountsBase| + 9;
    assert |lb| == 2 * |b| + |accountsBase| + 9;
    assert la[1..1 + |a|] == a;
    assert lb[1..1 + |b|] == b;
  }

  function Links(accountsBase: string, users: seq<User>): (links: seq<string>)
    ensures |links| == |users|
    ensures forall i :: 0 <= i < |users| ==> links[i] == UserLink(accountsBase, users[i].username)
  {
    seq(|users|, i requires 0 <= i < |users| => UserLink(accountsBase, users[i].username))
  }

  /** More members than this and `!members` only reports the count. */
  const MaxListed := 200

  /** The `members` reply for a found group (lines 254-259). */
  function MembersText(group: string, accountsBase: string, members: seq<User>): string
  {
    if |members| > MaxListed then group + " has " + NatToString(|members|) + " and thats too much to dump here"
    else "Members of " + group + ": " + Join(Links(accountsBase, members), ", ")
  }

  /**
   Above 200 members only the count is given (and reads back as the count);
   at 200 or fewer every member's link is in the reply.
   */
  lemma MembersThreshold(group: string, accountsBase: string, members: seq<User>)
    ensures |members| > MaxListed ==>
              MembersText(group, accountsBase, members)
                == group + " has " + NatToString(|members|) + " and thats too much to dump here"
              && DigitsValue(NatToString(|members|)) == |members|
    ensures |members| <= MaxListed ==>
              forall k :: 0 <= k < |members| ==>
                IsInfix(UserLink(accountsBase, members[k].username), MembersText(group, accountsBase, members))
  {
    NatToStringRoundTrip(|members|);
    if |members| <= MaxListed {
      var links := Links(accountsBase, members);
      forall k | 0 <= k < |members|
        ensures IsInfix(UserLink(accountsBase, members[k].username), MembersText(group, accountsBase, members))
      {
        JoinContainsPieces(links, ", ", k);
        InfixWithin(links[k], "Members of " + group + ": ", Join(links, ", "), "");
        assert "Members of " + group + ": " + Join(links, ", ") + "" == MembersText(group, accountsBase, members);
      }
    }
  }

  const MembersUsage := "groupname argument is required. e.g. `!members designteam`"
  const SponsorsUsage := "groupname argument is required. e.g. `!sponsors designteam`"

  /** `!members` (lines 235-259): an empty group name is refused before any lookup. */
  function MembersCommand(client: Option<Client>, group: string, accountsBase: string): (r: Reply)
    ensures group == "" ==> r == Reply(Sent(MembersUsage), [])
    ensures group != "" && client.None? ==> r == Reply(Sent(StartupFailure), [])
    ensures group != "" && client.Some? ==> r.calls == [ListGroupMembers(group)]
    ensures group != "" && client.Some? && client.value.listGroupMembers(group).Result? ==>
              r.response == Sent(MembersText(group, accountsBase, client.value.listGroupMembers(group).value))
    ensures group != "" && client.Some? && client.value.listGroupMembers(group) == ApiError(404) ==>
              r.response == Sent(GroupMissing(group))
    ensures group != "" ==> var run := GroupMembers(client, group);
      && r.calls == run.calls
      && (run.outcome.Info? ==> r.response == Sent(run.outcome.message))
      && (run.outcome.Crash? <==> r.response.Crashed?)
  {
    if group == "" then Reply(Sent(MembersUsage), [])
    else
      var run := GroupMembers(client, group);
      Reply(Respond(run.outcome, (ms: seq<User>) => MembersText(group, accountsBase, ms)), run.calls)
  }

  /** The `sponsors` reply for a found group (lines 276-278): always the full list. */
  function SponsorsText(group: string, accountsBase: string, sponsors: seq<User>): string
  {
    "Sponsors of " + group + ": " + Join(Links(accountsBase, sponsors), ", ")
  }

  /** `!sponsors` (lines 263-278): like `!members` without the size limit. */
  function SponsorsCommand(client: Option<Client>, group: string, accountsBase: string): (r: Reply)
    ensures group == "" ==> r == Reply(Sent(SponsorsUsage), [])
    ensures group != "" && client.None? ==> r == Reply(Sent(StartupFailure), [])
    ensures group != "" && client.Some? ==> r.calls == [ListGroupSponsors(group)]
    ensures group != "" && client.Some? && client.value.listGroupSponsors(group).Result? ==>
              r.response == Sent(SponsorsText(group, accountsBase, client.value.listGroupSponsors(group).value))
    ensures group != "" && client.Some? && client.value.listGroupSponsors(group) == ApiError(404) ==>
              r.response == Sent(GroupMissing(group))
    ensures group != "" ==> var run := GroupSponsors(client, group);
      && r.calls == run.calls
      && (run.outcome.Info? ==> r.response == Sent(run.outcome.message))
      && (run.outcome.Crash? <==> r.response.Crashed?)
  {
    if group == "" then Reply(Sent(SponsorsUsage), [])
    else
      var run := GroupSponsors(client, group);
      Reply(Respond(run.outcome, (ss: seq<User>) => SponsorsText(group, accountsBase, ss)), run.calls)
  }

  /** Every sponsor's link is in the sponsors reply. */
  lemma SponsorsListed(group: string, accountsBase: string, sponsors: seq<User>, k: nat)
    requires k < |sponsors|
    ensures IsInfix(UserLink(accountsBase, sponsors[k].username), SponsorsText(group, accountsBase, sponsors))
  {
    var links := Links(accountsBase, sponsors);
    JoinContainsPieces(links, ", ", k);
    InfixWithin(links[k], "Sponsors of " + group + ": ", Join(links, ", "), "");
    assert "Sponsors of " + group + ": " + Join(links, ", ") + "" == SponsorsText(group, accountsBase, sponsors);
  }

  /** The `hello` line (lines 301-303): name and username, then the pronouns if the list is not empty. */
  function HelloText(u: User): string
  {
    var line := Show(u.humanName) + " (" + u.username + ")";
    if |u.pronouns| > 0 then line + " - " + Join(u.pronouns, " or ") else line
  }

  /**
   A user without pronouns gets exactly "name (username)"; any pronoun list,
   even one holding an empty string, adds the " - " part.
   */
  lemma HelloPronouns(u: User)
    ensures var line := Show(u.humanName) + " (" + u.username + ")";
      && |HelloText(u)| >= |line| && HelloText(u)[..|line|] == line
      && (HelloText(u) == line <==> u.pronouns == [])
      && (u.pronouns != [] ==> |HelloText(u)| >= |line| + 3 && HelloText(u)[|line|..|line| + 3] == " - ")
  {
    var line := Show(u.humanName) + " (" + u.username + ")";
    if u.pronouns != [] {
      assert HelloText(u) == line + " - " + Join(u.pronouns, " or ");
      assert (line + " - " + Join(u.pronouns, " or "))[|line|..|line| + 3] == " - ";
    }
  }

  /** Every pronoun of the user is in the `hello` line. */
  lemma HelloListsPronouns(u: User, k: nat)
    requires k < |u.pronouns|
    ensures IsInfix(u.pronouns[k], HelloText(u))
  {
    var head := Show(u.humanName) + " (" + u.username + ")" + " - ";
    JoinContainsPieces(u.pronouns, " or ", k);
    InfixWithin(u.pronouns[k], head, Join(u.pronouns, " or "), []);
    assert head + Join(u.pronouns, " or ") + [] == HelloText(u);
  }

  /** `!hello` and its aliases (lines 284-304). */
  function HelloCommand(rev: Revision, client: Option<Client>, username: string, sender: string,
                        mentions: seq<string>): (r: Reply)
    ensures |r.calls| <= 1
    ensures client.None? ==> r == Reply(Sent(StartupFailure), [])
    ensures |mentions| > 1 && client.Some? ==> r == Reply(Sent(OneAtATime), [])
    ensures var run := Resolve(rev, client, username, sender, mentions);
      && r.calls == run.calls
      && (run.outcome.Ok? ==> r.response == Sent(HelloText(run.outcome.value)))
      && (run.outcome.Info? ==> r.response == Sent(run.outcome.message))
      && (run.outcome.Crash? <==> r.response.Crashed?)
  {
    var run := Resolve(rev, client, username, sender, mentions);
    Reply(Respond(run.outcome, HelloText), run.calls)
  }

  /** The `user` reply (lines 327-335); a user without GPG keys shows "None". */
  function UserText(u: User): string
  {
    var keys := if u.gpgKeyIds == [] then ["None"] else u.gpgKeyIds;
    "User: " + u.username + "," + NL
    + "Name: " + Show(u.humanName) + "," + NL
    + "Pronouns: " + Join(u.pronouns, " or ") + "," + NL
    + "Creation: " + u.creation + "," + NL
    + "Timezone: " + Show(u.timezone) + "," + NL
    + "Locale: " + Show(u.locale) + "," + NL
    + "GPG Key IDs: " + Join(keys, " and ") + "," + NL
  }

  /** Every GPG key id of the user is in the `user` reply. */
  lemma UserTextListsKeys(u: User, k: nat)
    requires k < |u.gpgKeyIds|
    ensures IsInfix(u.gpgKeyIds[k], UserText(u))
  {
    var head :=
      "User: " + u.username + "," + NL
      + "Name: " + Show(u.humanName) + "," + NL
      + "Pronouns: " + Join(u.pronouns, " or ") + "," + NL
      + "Creation: " + u.creation + "," + NL
      + "Timezone: " + Show(u.timezone) + "," + NL
      + "Locale: " + Show(u.locale) + "," + NL
      + "GPG Key IDs: ";
    JoinContainsPieces(u.gpgKeyIds, " and ", k);
    InfixWithin(u.gpgKeyIds[k], head, Join(u.gpgKeyIds, " and "), "," + NL);
    assert head + Join(u.gpgKeyIds, " and ") + ("," + NL) == UserText(u);
  }

  /** `!user` and its alias (lines 310-335). */
  function UserCommand(rev: Revision, client: Option<Client>, username: string, sender: string,
                       mentions: seq<string>): (r: Reply)
    ensures |r.calls| <= 1
    ensures client.None? ==> r == Reply(Sent(StartupFailure), [])
    ensures |mentions| > 1 && client.Some? ==> r == Reply(Sent(OneAtATime), [])
    ensures var run := Resolve(rev, client, username, sender, mentions);
      && r.calls == run.calls
      && (run.outcome.Ok? ==> r.response == Sent(UserText(run.outcome.value)))
      && (run.outcome.Info? ==> r.response == Sent(run.outcome.message))
      && (run.outcome.Crash? <==> r.response.Crashed?)
  {
    var run := Resolve(rev, client, username, sender, mentions);
    Reply(Respond(run.outcome, UserText), run.calls)
  }

  /** The package registry's `access_users` lists. */
  datatype AccessUsers = AccessUsers(admin: seq<string>, owner: seq<string>, commit: seq<string>)

  /** The registry's answer: its status and, when the body has them, the access lists. */
  datatype PackageResponse = PackageResponse(status: nat, access: Option<AccessUsers>)

  /** One role's section: the `, `-joined names after a label, or nothing when the join is empty. */
  function Section(role: string, names: seq<string>): string
  {
    var joined := Join(names, ", ");
    if joined == "" then "" else "__" + role + ":__ " + joined + NL
  }

  /** A section is left out exactly when there is no name, or one empty name. */
  lemma SectionPresence(role: string, names: seq<string>)
    ensures Section(role, names) == "" <==> names == [] || names == [""]
  {
    JoinEmpty(names, ", ");
  }

  /** The `whoowns` reply (lines 394-405): owners, then admins, then committers. */
  function WhoOwnsText(access: AccessUsers): string
  {
    Section("owner", access.owner) + Section("admin", access.admin) + Section("commit", access.commit)
  }

  /** The reply is empty exactly when no role has a non-empty name. */
  lemma WhoOwnsEmpty(access: AccessUsers)
    ensures WhoOwnsText(access) == "" <==>
              && (access.owner == [] || access.owner == [""])
              && (access.admin == [] || access.admin == [""])
              && (access.commit == [] || access.commit == [""])
  {
    SectionPresence("owner", access.owner);
    SectionPresence("admin", access.admin);
    SectionPresence("commit", access.commit);
  }

  /** Every name of a role with a section is in that section. */
  lemma SectionListsNames(role: string, names: seq<string>, k: nat)
    requires k < |names|
    ensures IsInfix(names[k], Section(role, names))
  {
    if names == [""] {
      assert OccursAt(names[k], Section(role, names), 0);
    } else {
      var joined := Join(names, ", ");
      JoinEmpty(names, ", ");
      JoinContainsPieces(names, ", ", k);
      InfixWithin(names[k], "__" + role + ":__ ", joined, NL);
    }
  }

  /** Every name of every role is in the reply. */
  lemma WhoOwnsListsEveryone(access: AccessUsers, k: nat)
    ensures k < |access.owner| ==> IsInfix(access.owner[k], WhoOwnsText(access))
    ensures k < |access.admin| ==> IsInfix(access.admin[k], WhoOwnsText(access))
    ensures k < |access.commit| ==> IsInfix(access.commit[k], WhoOwnsText(access))
  {
    var owners, admins, committers := Section("owner", access.owner), Section("admin", access.admin), Section("commit", access.commit);
    if k < |access.owner| {
      SectionListsNames("owner", access.owner, k);
      InfixOfThree(access.owner[k], owners, admins, committers);
    }
    if k < |access.admin| {
      SectionListsNames("admin", access.admin, k);
      InfixOfThree(access.admin[k], owners, admins, committers);
    }
    if k < |access.commit| {
      SectionListsNames("commit", access.commit, k);
      InfixOfThree(access.commit[k], owners, admins, committers);
    }
  }

  /** What occurs in one of three parts occurs in their concatenation. */
  lemma InfixOfThree(part: string, a: string, b: string, c: string)
    requires IsInfix(part, a) || IsInfix(part, b) || IsInfix(part, c)
    ensures IsInfix(part, a + b + c)
  {
    if IsInfix(part, a) {
      InfixWithin(part, [], a, b + c);
      assert [] + a + (b + c) == a + b + c;
    } else if IsInfix(part, b) {
      InfixWithin(part, a, b, c);
    } else {
      InfixWithin(part, a + b, c, []);
      assert a + b + c + [] == a + b + c;
    }
  }

  /**
   `!whoowns` (lines 377-407) given the registry's answer: 404 names the
   package; an answer without the access lists raises KeyError.
   */
  function WhoOwnsCommand(package: string, response: PackageResponse): (r: Response)
    ensures response.status == 404 ==> r == Sent("Package " + package + " not found.")
    ensures response.status != 404 && response.access.None? ==> r.Crashed?
    ensures response.status != 404 && response.access.Some? ==> r == Sent(WhoOwnsText(response.access.value))
  {
    if response.status == 404 then Sent("Package " + package + " not found.")
    else
      match response.access
      case None => Crashed(KeyError)
      case Some(access) => Sent(WhoOwnsText(access))
  }

  /** The issue summary (lines 427-429): title and URL may be missing and then print as "None". */
  function IssueText(project: string, issueId: string, issue: map<string, string>): string
  {
    "[" + project + " #" + issueId + "](" + Show(Get(issue, "full_url")) + "): " + Show(Get(issue, "title"))
  }

  /**
   `!pagureissue` (lines 412-429) with an empty namespace; `!fpc`, `!epel`
   and `!fesco` (lines 435-495) are this command with the project fixed to
   "packaging-committee", "epel" and "fesco".
   */
  function IssueCommand(pagureBase: string, project: string, issueId: string,
                        fetch: string -> HttpResponse): (r: Response)
    ensures var response := fetch(Endpoint(pagureBase, "", project, issueId));
      && (r.Crashed? <==> response.body.None?)
      && (response.body.Some? && response.status == 200 ==>
            r == Sent(IssueText(project, issueId, response.body.value)))
      && (response.body.Some? && response.status == 404 ==>
            r == Sent(NotFoundMessage(project, issueId, response.body.value)))
      && (response.body.Some? && response.status !in {200, 404} ==>
            r == Sent(QueryFailed(NatToString(response.status), response.reason)))
    ensures var run := PagureIssue(pagureBase, project, issueId, "", fetch);
      && (run.Info? ==> r == Sent(run.message))
      && (run.Crash? <==> r.Crashed?)
  {
    Respond(PagureIssue(pagureBase, project, issueId, "", fetch),
            (issue: map<string, string>) => IssueText(project, issueId, issue))
  }
}
