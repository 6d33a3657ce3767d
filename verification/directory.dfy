/**
 The Fedora Accounts (FASJSON) directory as the plugin sees it: an optional
 client handle whose calls either return a result, raise an API error with an
 HTTP code, or raise the client library's setup error; and the decorator
 `catch_generic_fasjson_errors` that guards every lookup.
 */
module Directory {
  import opened Wrappers

  /** A directory user record, as the plugin reads it. */
  datatype User = User(
    username: string,
    humanName: Option<string>,
    pronouns: seq<string>,
    creation: string,
    timezone: Option<string>,
    locale: Option<string>,
    gpgKeyIds: seq<string>)

  /** What one directory call gives back. */
  datatype Answer<+T> = Result(value: T) | ApiError(code: int) | SetupError(detail: string)

  /** The directory client: each operation is an oracle from its argument to its answer. */
  datatype Client = Client(
    getUser: string -> Answer<User>,
    search: string -> Answer<seq<User>>,
    listGroupMembers: string -> Answer<seq<User>>,
    listGroupSponsors: string -> Answer<seq<User>>)

  /** A directory call the plugin issued, in the order issued. */
  datatype Call =
    | GetUser(username: string)
    | SearchIrcNick(key: string)
    | ListGroupMembers(group: string)
    | ListGroupSponsors(group: string)

  /** The Python exceptions that escape a command handler uncaught. */
  datatype Fault =
    | UnboundLocal(variable: string)
    | UncaughtApiError(code: int)
    | IndexError
    | TypeError
    | JsonDecodeError
    | KeyError
    | AttributeError

  /**
   The end of a lookup: a value, an `InfoGatherError` whose message the
   command sends as its reply, or a crash.
   */
  datatype Outcome<+T> = Ok(value: T) | Info(message: string) | Crash(fault: Fault)

  /** Inside the guard a lookup can also raise the client's setup error. */
  datatype Raised<+T> = Finished(outcome: Outcome<T>) | SetupFailed(detail: string)

  /** A lookup inside the guard together with the directory calls it made. */
  datatype Attempt<+T> = Attempt(result: Raised<T>, calls: seq<Call>)

  /** A guarded lookup together with the directory calls it made. */
  datatype Run<+T> = Run(outcome: Outcome<T>, calls: seq<Call>)

  const ConnectPrefix := "Sorry, I can not give you the required information." + " I failed to connect to FASJSON"

  /** The message when the client could not be built at plugin start. */
  const StartupFailure := ConnectPrefix + " on startup"

  /** The message when a call raised the client's setup error (say, an expired Kerberos ticket). */
  function SetupFailure(detail: string): string
  {
    ConnectPrefix + ": **" + detail + "**"
  }

  /**
   The `try ... except ClientSetupError` half of the guard: a setup error
   raised by any call becomes its own message, and everything else (results,
   messages, crashes) passes through with the calls made.
   */
  function Settle<T>(a: Attempt<T>): (r: Run<T>)
    ensures r.calls == a.calls
    ensures a.result.Finished? ==> r.outcome == a.result.outcome
    ensures a.result.SetupFailed? ==> r.outcome == Info(SetupFailure(a.result.detail))
  {
    match a.result
    case Finished(o) => Run(o, a.calls)
    case SetupFailed(d) => Run(Info(SetupFailure(d)), a.calls)
  }

  /**
   `catch_generic_fasjson_errors`: with no client the lookup is not run at all
   and no call is made; otherwise the lookup runs and is settled.
   */
  function Guard<T>(client: Option<Client>, body: Client -> Attempt<T>): (r: Run<T>)
    ensures client.None? ==> r == Run(Info(StartupFailure), [])
    ensures client.Some? ==> r == Settle(body(client.value))
  {
    match client
    case None => Run(Info(StartupFailure), [])
    case Some(c) => Settle(body(c))
  }

  /** The startup message and every mid-run setup message differ, so a reader can tell the two apart. */
  lemma StartupDistinctFromSetup(detail: string)
    ensures StartupFailure != SetupFailure(detail)
  {
    var n := |ConnectPrefix|;
    assert StartupFailure[n] == ' ';
    assert SetupFailure(detail)[n] == ':';
  }

  /**
   One directory call guarded by `try ... except APIError` that handles only
   404: a result is kept, 404 raises `notFound`, any other API error leaves
   `variable` unbound so the following `return` crashes, and a setup error
   propagates to the guard.
   */
  function Fetch<T>(answer: Answer<T>, call: Call, notFound: string, variable: string): (r: Attempt<T>)
    ensures r.calls == [call]
    ensures r.result.Finished? && r.result.outcome.Ok? <==> answer.Result?
    ensures answer.Result? ==> r.result == Finished(Ok(answer.value))
    ensures r.result == Finished(Info(notFound)) <==> answer == ApiError(404)
    ensures r.result.Finished? && r.result.outcome.Crash? <==> answer.ApiError? && answer.code != 404
    ensures r.result.SetupFailed? <==> answer.SetupError?
    ensures answer.ApiError? && answer.code != 404 ==> r.result == Finished(Crash(UnboundLocal(variable)))
    ensures answer.SetupError? ==> r.result == SetupFailed(answer.detail)
  {
    var outcome :=
      match answer
      case Result(v) => Finished(Ok(v))
      case ApiError(code) => if code == 404 then Finished(Info(notFound)) else Finished(Crash(UnboundLocal(variable)))
      case SetupError(d) => SetupFailed(d);
    Attempt(outcome, [call])
  }
}
