/** The Pagure issue lookup `_get_pagure_issue` (fedora/__init__.py:147-163). */
module Pagure {
  import opened Wrappers
  import opened Strings
  import opened Directory

  /**
   The HTTP answer to the issue request: status code, reason phrase, and the
   body's JSON object, `None` when the body does not decode.
   */
  datatype HttpResponse = HttpResponse(status: nat, reason: string, body: Option<map<string, string>>)

  /** Python's `d.get(key)`. */
  function Get(d: map<string, string>, key: string): Option<string>
  {
    if key in d then Some(d[key]) else None
  }

  /** The request URL: the base followed by the `/`-joined namespace, project, `issue` and id. */
  function Endpoint(base: string, namespace: string, project: string, issueId: string): string
  {
    base + Join([namespace, project, "issue", issueId], "/")
  }

  /** After the base the URL splits back into its four segments, provided none holds a slash. */
  lemma EndpointSegments(base: string, namespace: string, project: string, issueId: string)
    requires '/' !in namespace && '/' !in project && '/' !in issueId
    ensures var url := Endpoint(base, namespace, project, issueId);
      && |base| <= |url| && url[..|base|] == base
      && Split(url[|base|..], '/') == [namespace, project, "issue", issueId]
  {
    var pieces := [namespace, project, "issue", issueId];
    var url := Endpoint(base, namespace, project, issueId);
    assert url[|base|..] == Join(pieces, "/");
    SplitJoin(pieces, '/');
  }

  /** An empty namespace still leaves the slash that joins it to the project. */
  lemma EmptyNamespaceKeepsSlash(base: string, project: string, issueId: string)
    ensures Endpoint(base, "", project, issueId) == base + "/" + project + "/issue/" + issueId
  {
    assert [project, "issue", issueId][1..] == ["issue", issueId];
    assert ["", project, "issue", issueId][1..] == [project, "issue", issueId];
    assert Join(["issue", issueId], "/") == "issue/" + issueId;
    assert Join([project, "issue", issueId], "/") == project + "/issue/" + issueId;
  }

  function ProjectMissing(project: string): string
  {
    "Project " + project + " not found"
  }

  function IssueMissing(project: string, issueId: string): string
  {
    "Issue #" + issueId + " not found on " + project + " project"
  }

  function QueryFailed(what: string, detail: string): string
  {
    "Issue querying Pagure: " + what + ": " + detail
  }

  /** The message for a 404 answer, read from its structured error code. */
  function NotFoundMessage(project: string, issueId: string, json: map<string, string>): string
  {
    var code := Get(json, "error_code");
    if code == Some("ENOPROJECT") then ProjectMissing(project)
    else if code == Some("ENOISSUE") then IssueMissing(project, issueId)
    else QueryFailed(Show(code), Show(Get(json, "error")))
  }

  /**
   `_get_pagure_issue`: the body is decoded before the status is looked at, so
   an undecodable body crashes whatever the status; a decoded 200 body is the
   result as it stands; every other decoded answer becomes a message, 404s by
   their error code and the rest by status and reason.
   */
  function PagureIssue(base: string, project: string, issueId: string, namespace: string,
                       fetch: string -> HttpResponse): (r: Outcome<map<string, string>>)
    ensures var response := fetch(Endpoint(base, namespace, project, issueId));
      && (r.Crash? <==> response.body.None?)
      && (r.Ok? <==> response.body.Some? && response.status == 200)
      && (r.Ok? ==> r.value == response.body.value)
      && (r.Info? <==> response.body.Some? && response.status != 200)
      && (response.body.Some? && response.status == 404 ==>
            r == Info(NotFoundMessage(project, issueId, response.body.value)))
      && (response.body.Some? && response.status !in {200, 404} ==>
            r == Info(QueryFailed(NatToString(response.status), response.reason)))
  {
    var response := fetch(Endpoint(base, namespace, project, issueId));
    match response.body
    case None => Crash(JsonDecodeError)
    case Some(json) =>
      if response.status == 404 then Info(NotFoundMessage(project, issueId, json))
      else if response.status != 200 then Info(QueryFailed(NatToString(response.status), response.reason))
      else Ok(json)
  }

  /** The three 404 cases are told apart by the error code alone. */
  lemma NotFoundCases(project: string, issueId: string, json: map<string, string>)
    ensures Get(json, "error_code") == Some("ENOPROJECT") ==>
              NotFoundMessage(project, issueId, json) == ProjectMissing(project)
    ensures Get(json, "error_code") == Some("ENOISSUE") ==>
              NotFoundMessage(project, issueId, json) == IssueMissing(project, issueId)
    ensures Get(json, "error_code") !in {Some("ENOPROJECT"), Some("ENOISSUE")} ==>
              NotFoundMessage(project, issueId, json)
                == QueryFailed(Show(Get(json, "error_code")), Show(Get(json, "error")))
  {
  }
}
