/**
 The identity resolver `_get_fasuser` (fedora/__init__.py:56-123): turns the
 free-text argument of a command, the sender's Matrix id and the mentions found
 in the formatted message body into one directory user, one message for the
 chat, or a crash, and records every directory call it makes.
 */
module Identity {
  import opened Wrappers
  import opened Strings
  import opened MatrixIds
  import opened Directory

  /**
   The resolver as the source has it, or with its two defects repaired: the
   `except` clause that misses IndexError and the join over user records.
   */
  datatype Revision = AsWritten | Corrected

  /** The home server whose local parts are directory usernames. */
  const OwnServer := "fedora.im"

  const OneAtATime := "Sorry, I can only look up one username at a time"

  function UserMissing(username: string): string
  {
    "Sorry, but Fedora Accounts user '" + username + "' does not exist"
  }

  function InvalidMatrixId(id: string): string
  {
    "Sorry, " + id + " does not look like a valid matrix user ID (e.g. @username:homeserver.com )"
  }

  function NoMapping(id: string): string
  {
    "No Fedora Accounts users have the " + id + " Matrix Account defined"
  }

  function Usernames(users: seq<User>): (names: seq<string>)
    ensures |names| == |users|
    ensures forall i :: 0 <= i < |users| ==> names[i] == users[i].username
  {
    seq(|users|, i requires 0 <= i < |users| => users[i].username)
  }

  /** The message for a Matrix id that several directory users claim, listing them one per line. */
  function Ambiguous(id: string, users: seq<User>): string
  {
    NatToString(|users|) + " Fedora Accounts users have the " + id + " Matrix Account defined:" + NL
    + Join(Usernames(users), NL)
  }

  /** The exact-match search key the directory stores Matrix ids under. */
  function SearchKey(m: MatrixId): string
  {
    "matrix://" + m.server + "/" + m.localpart
  }

  /** The call behind a successful lookup returned exactly `u`: no result is narrowed from a longer list. */
  predicate Provides(client: Client, call: Call, u: User)
  {
    match call
    case GetUser(name) => client.getUser(name) == Result(u)
    case SearchIrcNick(key) => client.search(key) == Result([u])
    case _ => false
  }

  /** `_get_person_by_username` (lines 58-65). */
  function PersonByUsername(client: Client, username: string): (r: Attempt<User>)
    ensures r.calls == [GetUser(username)]
    ensures r.result.Finished? && r.result.outcome.Ok? ==> Provides(client, GetUser(username), r.result.outcome.value)
    ensures r.result == Finished(Info(UserMissing(username))) <==> client.getUser(username) == ApiError(404)
    ensures var answer := client.getUser(username);
      && (answer.Result? ==> r.result == Finished(Ok(answer.value)))
      && (answer.ApiError? && answer.code != 404 ==> r.result == Finished(Crash(UnboundLocal("person"))))
      && (answer.SetupError? ==> r.result == SetupFailed(answer.detail))
  {
    Fetch(client.getUser(username), GetUser(username), UserMissing(username), "person")
  }

  /**
   `_get_users_by_matrix_id` (lines 67-92): split the id, take the fast path
   for the own home server, otherwise search and read the result list by its
   length.
   */
  function UsersByMatrixId(rev: Revision, client: Client, id: string): (r: Attempt<User>)
    ensures ParseMatrixId(id).None? ==> r.calls == []
    ensures |r.calls| <= 1
    ensures r.result.Finished? && r.result.outcome.Ok? ==>
              |r.calls| == 1 && Provides(client, r.calls[0], r.result.outcome.value)
  {
    match ParseMatrixId(id)
    case None =>
      var unparsable := if rev == AsWritten then Crash(IndexError) else Info(InvalidMatrixId(id));
      Attempt(Finished(unparsable), [])
    case Some(m) =>
      if m.server == OwnServer then PersonByUsername(client, m.localpart)
      else
        var key := SearchKey(m);
        Attempt(Searched(rev, id, client.search(key)), [SearchIrcNick(key)])
  }

  /**
   What the search answer for `id` becomes (lines 80-92): only an answer with
   exactly one user yields a user, and it is that user.
   */
  function Searched(rev: Revision, id: string, answer: Answer<seq<User>>): (r: Raised<User>)
    ensures r.Finished? && r.outcome.Ok? ==> answer == Result([r.outcome.value])
    ensures r.SetupFailed? <==> answer.SetupError?
    ensures answer.SetupError? ==> r == SetupFailed(answer.detail)
  {
    match answer
    case SetupError(d) => SetupFailed(d)
    case ApiError(code) => Finished(Crash(UncaughtApiError(code)))
    case Result(users) =>
      if |users| > 1 then
        Finished(if rev == AsWritten then Crash(TypeError) else Info(Ambiguous(id, users)))
      else if |users| == 0 then Finished(Info(NoMapping(id)))
      else
        assert users == [users[0]];
        Finished(Ok(users[0]))
  }

  /** The argument actually looked up: an empty one falls back to the sender. */
  function Effective(username: string, sender: string): string
  {
    if username == "" then sender else username
  }

  /** The body of `_get_fasuser` (lines 94-123), inside the guard. */
  function Lookup(rev: Revision, client: Client, username: string, sender: string, mentions: seq<string>): (r: Attempt<User>)
    ensures |r.calls| <= 1
    ensures r.result.Finished? && r.result.outcome.Ok? ==>
              |r.calls| == 1 && Provides(client, r.calls[0], r.result.outcome.value)
  {
    if |mentions| > 1 then Attempt(Finished(Info(OneAtATime)), [])
    else if |mentions| == 1 then UsersByMatrixId(rev, client, mentions[0])
    else
      var tokens := Split(Effective(username, sender), ' ');
      if |tokens| > 1 then Attempt(Finished(Info(OneAtATime)), [])
      else if HasMatrixShape(tokens[0]) then UsersByMatrixId(rev, client, tokens[0])
      else PersonByUsername(client, tokens[0])
  }

  /**
   `_get_fasuser` under its guard. `mentions` is what the mention pattern of
   lines 104-107 extracted from the formatted body (empty when there is none).
   At most one directory call is made, and a user is returned only when the
   one call made returned exactly that user.
   */
  function Resolve(rev: Revision, client: Option<Client>, username: string, sender: string, mentions: seq<string>): (r: Run<User>)
    ensures |r.calls| <= 1
    ensures client.None? ==> r == Run(Info(StartupFailure), [])
    ensures r.outcome.Ok? ==>
              client.Some? && |r.calls| == 1 && Provides(client.value, r.calls[0], r.outcome.value)
  {
    Guard(client, (c: Client) => Lookup(rev, c, username, sender, mentions))
  }

  /** An empty argument is the same as giving the sender's own id. */
  lemma EmptyArgumentIsSender(rev: Revision, client: Option<Client>, sender: string, mentions: seq<string>)
    ensures Resolve(rev, client, "", sender, mentions) == Resolve(rev, client, sender, sender, mentions)
  {
    if client.Some? {
      assert Lookup(rev, client.value, "", sender, mentions) == Lookup(rev, client.value, sender, sender, mentions);
    }
  }

  /** Two or more mentions are refused before any text is read and before any call. */
  lemma ManyMentionsRefused(rev: Revision, c: Client, username: string, sender: string, mentions: seq<string>)
    requires |mentions| > 1
    ensures Resolve(rev, Some(c), username, sender, mentions) == Run(Info(OneAtATime), [])
  {
  }

  /** With exactly one mention, that mention is resolved and the argument text is ignored. */
  lemma SingleMentionWins(rev: Revision, c: Client, username: string, sender: string, mention: string)
    ensures Resolve(rev, Some(c), username, sender, [mention]) == Settle(UsersByMatrixId(rev, c, mention))
  {
  }

  /** An argument holding a space (so a split in several pieces) is refused without any call. */
  lemma SpaceRefused(rev: Revision, c: Client, username: string, sender: string)
    requires ' ' in Effective(username, sender)
    ensures Resolve(rev, Some(c), username, sender, []) == Run(Info(OneAtATime), [])
  {
  }

  /**
   A single token with the Matrix shape goes to the Matrix lookup, where its
   split always succeeds; any other token is looked up as a username.
   */
  lemma TokenRouting(rev: Revision, c: Client, username: string, sender: string)
    requires ' ' !in Effective(username, sender)
    ensures var t := Effective(username, sender);
      && (HasMatrixShape(t) ==> ParseMatrixId(t).Some?)
      && (HasMatrixShape(t) ==> Resolve(rev, Some(c), username, sender, []) == Settle(UsersByMatrixId(rev, c, t)))
      && (!HasMatrixShape(t) ==> Resolve(rev, Some(c), username, sender, []) == Settle(PersonByUsername(c, t)))
  {
    var t := Effective(username, sender);
    SplitWithoutSeparator(t, ' ');
    ShapeIffParses(t);
  }

  /**
   A plain token (no space, no Matrix shape) gets one `get_user` call, and the
   guarded reply follows its answer: the record, the "does not exist"
   message, the unbound-`person` crash, or the connection message with the
   setup error's text.
   */
  lemma PlainTokenLookup(rev: Revision, c: Client, name: string)
    requires name != "" && ' ' !in name && !HasMatrixShape(name)
    ensures var answer := c.getUser(name);
      && Resolve(rev, Some(c), name, "", []).calls == [GetUser(name)]
      && (answer.Result? ==> Resolve(rev, Some(c), name, "", []).outcome == Ok(answer.value))
      && (answer == ApiError(404) ==> Resolve(rev, Some(c), name, "", []).outcome == Info(UserMissing(name)))
      && (answer.ApiError? && answer.code != 404 ==>
            Resolve(rev, Some(c), name, "", []).outcome == Crash(UnboundLocal("person")))
      && (answer.SetupError? ==> Resolve(rev, Some(c), name, "", []).outcome == Info(SetupFailure(answer.detail)))
  {
    TokenRouting(rev, c, name, "");
  }

  /** On the own home server the local part is looked up as a username, and no search is issued. */
  lemma OwnServerFastPath(rev: Revision, c: Client, id: string, localpart: string)
    requires ParseMatrixId(id) == Some(MatrixId(localpart, OwnServer))
    ensures UsersByMatrixId(rev, c, id) == PersonByUsername(c, localpart)
    ensures UsersByMatrixId(rev, c, id).calls == [GetUser(localpart)]
  {
  }

  /** On any other server exactly one search is issued, keyed `matrix://server/localpart`. */
  lemma OtherServerSearch(rev: Revision, c: Client, id: string, m: MatrixId)
    requires ParseMatrixId(id) == Some(m) && m.server != OwnServer
    ensures UsersByMatrixId(rev, c, id).calls == [SearchIrcNick("matrix://" + m.server + "/" + m.localpart)]
  {
  }

  /**
   The search result read by its length: none is "not mapped", one is the
   user, several crash as written and, once repaired, give a message naming
   every candidate.
   */
  lemma SearchCardinality(rev: Revision, c: Client, id: string, m: MatrixId, users: seq<User>)
    requires ParseMatrixId(id) == Some(m) && m.server != OwnServer
    requires c.search(SearchKey(m)) == Result(users)
    ensures |users| == 0 ==> UsersByMatrixId(rev, c, id).result == Finished(Info(NoMapping(id)))
    ensures |users| == 1 ==> UsersByMatrixId(rev, c, id).result == Finished(Ok(users[0]))
    ensures |users| > 1 && rev == AsWritten ==> UsersByMatrixId(rev, c, id).result == Finished(Crash(TypeError))
    ensures |users| > 1 && rev == Corrected ==> UsersByMatrixId(rev, c, id).result == Finished(Info(Ambiguous(id, users)))
  {
  }

  /**
   The search sits outside any `try` (line 81): an API error from it is not
   turned into a message, whatever its code, 404 included.
   */
  lemma SearchApiErrorUncaught(rev: Revision, c: Client, id: string, m: MatrixId, code: int)
    requires ParseMatrixId(id) == Some(m) && m.server != OwnServer
    requires c.search(SearchKey(m)) == ApiError(code)
    ensures UsersByMatrixId(rev, c, id).result == Finished(Crash(UncaughtApiError(code)))
  {
  }

  /** The repaired ambiguity message names every candidate's username. */
  lemma AmbiguousNamesEveryone(id: string, users: seq<User>, k: nat)
    requires k < |users|
    ensures IsInfix(users[k].username, Ambiguous(id, users))
  {
    var head := NatToString(|users|) + " Fedora Accounts users have the " + id + " Matrix Account defined:" + NL;
    var names := Join(Usernames(users), NL);
    JoinContainsPieces(Usernames(users), NL, k);
    InfixWithin(users[k].username, head, names, []);
    assert head + names + [] == Ambiguous(id, users);
  }

  const Alice := "@alice:matrix.org"
  const AliceId := MatrixId("alice", "matrix.org")

  /** Where `@` and the last `:` sit in `@alice:matrix.org`. */
  lemma AliceMarks()
    ensures '\n' !in Alice && ' ' !in Alice
    ensures HasMatrixShape(Alice)
    ensures FirstIndex(Alice, '@') == Some(0)
    ensures LastIndex(Alice, ':') == Some(6)
  {
    var s := Alice;
    assert forall k :: 0 <= k < |s| ==> s[k] != '\n' && s[k] != ' ';
    assert s[0] == '@' && s[6] == ':' && NoNewline(s, 1, 6);
    assert forall k :: 6 < k < |s| ==> s[k] != ':';
    var l := LastIndex(s, ':');
    assert l.Some? && l.value >= 6;
  }

  /** `@alice:matrix.org` is routed to the Matrix lookup and splits into `alice` on `matrix.org`. */
  lemma AliceOnMatrixOrg()
    ensures HasMatrixShape(Alice)
    ensures ParseMatrixId(Alice) == Some(AliceId)
  {
    AliceMarks();
    RoutedTokenSplit(Alice);
    AliceParts();
  }

  /** The local part and the server of `@alice:matrix.org`, read off by position. */
  lemma AliceParts()
    ensures Alice[1..6] == AliceId.localpart
    ensures Alice[7..] == AliceId.server
  {
    assert Alice == "@" + AliceId.localpart + ":" + AliceId.server;
  }

  /** A single Matrix-shaped token on another server: one search, whose answer decides the outcome. */
  lemma SearchedToken(rev: Revision, c: Client, id: string, sender: string, m: MatrixId, users: seq<User>)
    requires id != "" && ' ' !in id
    requires ParseMatrixId(id) == Some(m) && m.server != OwnServer
    requires c.search(SearchKey(m)) == Result(users)
    ensures Resolve(rev, Some(c), id, sender, []).calls == [SearchIrcNick(SearchKey(m))]
    ensures Resolve(rev, Some(c), id, sender, []).outcome == UsersByMatrixId(rev, c, id).result.outcome
  {
    ShapeIffParses(id);
    TokenRouting(rev, c, id, sender);
  }

  /** Two directory users claiming `@alice:matrix.org` crash the lookup as written. */
  lemma TwoClaimantsCrash(c: Client, first: User, second: User)
    requires c.search(SearchKey(AliceId)) == Result([first, second])
    ensures Resolve(AsWritten, Some(c), Alice, "@bob:fedora.im", [])
              == Run(Crash(TypeError), [SearchIrcNick(SearchKey(AliceId))])
  {
    var m := AliceId;
    AliceOnMatrixOrg();
    AliceMarks();
    SearchedToken(AsWritten, c, Alice, "@bob:fedora.im", m, [first, second]);
    SearchCardinality(AsWritten, c, Alice, m, [first, second]);
  }

  /** Repaired, the same answer gives a message naming both claimants. */
  lemma TwoClaimantsListed(c: Client, first: User, second: User)
    requires c.search(SearchKey(AliceId)) == Result([first, second])
    ensures var r := Resolve(Corrected, Some(c), Alice, "@bob:fedora.im", []);
      && r == Run(Info(Ambiguous(Alice, [first, second])), [SearchIrcNick(SearchKey(AliceId))])
      && IsInfix(first.username, r.outcome.message)
      && IsInfix(second.username, r.outcome.message)
  {
    var m := AliceId;
    AliceOnMatrixOrg();
    AliceMarks();
    SearchedToken(Corrected, c, Alice, "@bob:fedora.im", m, [first, second]);
    SearchCardinality(Corrected, c, Alice, m, [first, second]);
    AmbiguousNamesEveryone(Alice, [first, second], 0);
    AmbiguousNamesEveryone(Alice, [first, second], 1);
  }

  /** A direct lookup answered with an API error other than 404 crashes on the unbound `person`. */
  lemma OtherApiErrorCrashes(rev: Revision, c: Client, name: string, code: int)
    requires ' ' !in name && !HasMatrixShape(name) && name != ""
    requires c.getUser(name) == ApiError(code) && code != 404
    ensures Resolve(rev, Some(c), name, "", []) == Run(Crash(UnboundLocal("person")), [GetUser(name)])
  {
    TokenRouting(rev, c, name, "");
  }

  /** A mention that does not split as a Matrix id crashes with IndexError as written, with no call made. */
  lemma UnparsableMentionCrashes(c: Client, username: string, sender: string, mention: string)
    requires !HasMatrixShape(mention)
    ensures Resolve(AsWritten, Some(c), username, sender, [mention]) == Run(Crash(IndexError), [])
  {
    ShapeIffParses(mention);
  }

  /** A link to a room alias, which the mention pattern also extracts, is such a mention. */
  lemma RoomMentionCrashes(c: Client)
    ensures Resolve(AsWritten, Some(c), "", "@someone:fedora.im", ["#fedora:fedora.im"]) == Run(Crash(IndexError), [])
  {
    var room := "#fedora:fedora.im";
    assert forall k :: 0 <= k < |room| ==> room[k] != '@';
    UnparsableMentionCrashes(c, "", "@someone:fedora.im", room);
  }

  /** Repaired, the same mention gets the "not a valid matrix user ID" message, still with no call made. */
  lemma UnparsableMentionReported(c: Client, username: string, sender: string, mention: string)
    requires !HasMatrixShape(mention)
    ensures Resolve(Corrected, Some(c), username, sender, [mention]) == Run(Info(InvalidMatrixId(mention)), [])
  {
    ShapeIffParses(mention);
  }
}
