/** Group lookups `_get_group_members` and `_get_group_sponsors` (fedora/__init__.py:125-145). */
module Groups {
  import opened Wrappers
  import opened Directory

  function GroupMissing(group: string): string
  {
    "Sorry, but group '" + group + "' does not exist"
  }

  /**
   The two group lookups differ only in the directory operation and the name
   of the variable left unbound on an API error other than 404.
   */
  function GroupLookup(client: Option<Client>, group: string, sponsors: bool): (r: Run<seq<User>>)
    ensures client.None? ==> r == Run(Info(StartupFailure), [])
    ensures client.Some? ==> r.calls == [if sponsors then ListGroupSponsors(group) else ListGroupMembers(group)]
    ensures client.Some? ==>
              var answer := if sponsors then client.value.listGroupSponsors(group) else client.value.listGroupMembers(group);
              && (r.outcome.Ok? <==> answer.Result?)
              && (r.outcome.Ok? ==> answer.value == r.outcome.value)
              && (answer == ApiError(404) ==> r.outcome == Info(GroupMissing(group)))
              && (r.outcome.Crash? <==> answer.ApiError? && answer.code != 404)
              && (answer.SetupError? ==> r.outcome == Info(SetupFailure(answer.detail)))
  {
    Guard(client, (c: Client) => GroupFetch(c, group, sponsors))
  }

  /** The body under the guard: one listing call, its 404 reported, the result variable named as in the source. */
  function GroupFetch(c: Client, group: string, sponsors: bool): Attempt<seq<User>>
  {
    if sponsors then Fetch(c.listGroupSponsors(group), ListGroupSponsors(group), GroupMissing(group), "sponsors")
    else Fetch(c.listGroupMembers(group), ListGroupMembers(group), GroupMissing(group), "members")
  }

  /** `_get_group_members` (lines 125-133). */
  function GroupMembers(client: Option<Client>, group: string): Run<seq<User>>
  {
    GroupLookup(client, group, false)
  }

  /** `_get_group_sponsors` (lines 135-145). */
  function GroupSponsors(client: Option<Client>, group: string): Run<seq<User>>
  {
    GroupLookup(client, group, true)
  }

  /** The "does not exist" message is not one of the guard's connection messages. */
  lemma GroupMissingIsNotConnection(group: string, detail: string)
    ensures GroupMissing(group) != StartupFailure
    ensures GroupMissing(group) != SetupFailure(detail)
  {
    assert GroupMissing(group)[7] == 'b';
    assert "Sorry, I can not give you the required information."[7] == 'I';
    assert ConnectPrefix[7] == 'I';
    assert StartupFailure[7] == 'I';
    assert SetupFailure(detail)[7] == 'I';
  }
}
