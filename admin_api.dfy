/** The write side of the Keycloak admin API: the requests the clients send,
  the replies they read back, and the `Location` header from which a created
  user's or group's id is cut.

  The server is a class holding the read-only directory snapshot, a fixed
  function from request to reply, and the log of requests sent so far; every
  write appends to that log.
 */
module AdminApi {
  import opened Wrappers
  import opened Text
  import opened Directory

  /** The fields of a registration that reach the server (the generated
      credentials are not modelled). */
  datatype UserModel = UserModel(userName: string, email: string, firstName: string, lastName: string)

  datatype Request =
    | PostUser(user: UserModel)                     // POST users
    | PostGroup(name: string)                       // POST groups, body {name}
    | PutGroup(groupPath: string, name: string)     // PUT groups/{groupPath}, body {name}
    | DeleteGroup(groupId: string)                  // DELETE groups/{groupId}
    | PutMembership(userId: string, groupId: string) // PUT users/{userId}/groups/{groupId}
    | PostRoleMapping(userId: string, role: string) // POST users/{userId}/role-mappings/realm, body [role]

  datatype Reply = Reply(status: int, location: Option<string>)

  /** `HttpResponseMessage.IsSuccessStatusCode`. */
  predicate IsSuccess(status: int) {
    200 <= status <= 299
  }

  /** `EnsureSuccessStatusCode`: the reply, or an HttpRequestException carrying
      the status. */
  function EnsureSuccess(rep: Reply): (r: Result<Reply>)
    ensures r.Ok? <==> IsSuccess(rep.status)
    ensures r.Ok? ==> r.value == rep
    ensures r.Err? ==> r.fault == HttpStatus(rep.status)
  {
    if IsSuccess(rep.status) then Ok(rep) else Err(HttpStatus(rep.status))
  }

  /** What an operation returns together with the writes it sent, in order. */
  datatype Outcome<T> = Outcome(result: Result<T>, sent: seq<Request>)

  class Keycloak {
    const dir: Snapshot
    const answer: Request -> Reply
    var sent: seq<Request>

    constructor (dir: Snapshot, answer: Request -> Reply)
      ensures this.dir == dir && this.answer == answer && sent == []
    {
      this.dir := dir;
      this.answer := answer;
      sent := [];
    }

    method Send(req: Request) returns (rep: Reply)
      modifies this
      ensures sent == old(sent) + [req]
      ensures rep == answer(req)
    {
      sent := sent + [req];
      rep := answer(req);
    }
  }

  /** ExtractUserIdentityIdFromLocationHeader / ExtractGroupIdentityIdFromLocationHeader:
      a missing or blank header raises; otherwise the text after the first
      occurrence of `segment` (ignoring case). An absent segment is not
      guarded: `IndexOf` gives -1 and the cut starts at `|segment| - 1`, which
      raises when that is past the end. */
  function IdFromLocation(location: Option<string>, segment: string): (r: Result<string>)
    ensures IsNullOrWhiteSpace(location) ==> r == Err(InvalidOperation)
    ensures !IsNullOrWhiteSpace(location) ==>
      var s := location.value;
      var k := IndexOfIgnoreCase(s, segment);
      && (k >= 0 ==> r == Ok(s[k + |segment|..]))
      && (k < 0 && |segment| - 1 <= |s| ==> r == Ok(s[|segment| - 1..]))
      && (k < 0 && |segment| - 1 > |s| ==> r == Err(ArgumentOutOfRange))
  {
    if IsNullOrWhiteSpace(location) then Err(InvalidOperation)
    else
      var s := location.value;
      var start := IndexOfIgnoreCase(s, segment) + |segment|;
      if start < 0 || start > |s| then Err(ArgumentOutOfRange) else Ok(s[start..])
  }

  /** The header a server is expected to send, `{base}{segment}{id}` with the
      segment occurring nowhere earlier, gives back exactly `id`. */
  lemma LocationRoundTrip(base: string, segment: string, id: string)
    requires !IsBlank(segment)
    requires forall j | 0 <= j < |base| :: !MatchesAt(base + segment + id, segment, j)
    ensures IdFromLocation(Some(base + segment + id), segment) == Ok(id)
  {
    var s := base + segment + id;
    assert s[|base|..|base| + |segment|] == segment;
    assert MatchesAt(s, segment, |base|);
    var i :| 0 <= i < |segment| && !IsWhiteSpace(segment[i]);
    assert s[|base| + i] == segment[i];
    assert IndexOfIgnoreCase(s, segment) == |base|;
    assert s[|base| + |segment|..] == id;
  }

  /** A header without the segment yields the text from `|segment| - 1` on:
      for "users/" the last five characters are dropped from the front. */
  lemma LocationWithoutSegment(s: string, segment: string)
    requires !IsBlank(s) && |segment| >= 1 && |segment| - 1 <= |s|
    requires forall j | 0 <= j :: !MatchesAt(s, segment, j)
    ensures IdFromLocation(Some(s), segment) == Ok(s[|segment| - 1..])
  {
  }

  /** CreateGroupAsync, written alike in both clients: POST groups with the
      name, then the new id from the Location header. */
  function CreateGroupOutcome(answer: Request -> Reply, name: string): (o: Outcome<string>)
    ensures o.sent == [PostGroup(name)]
    ensures !IsSuccess(answer(PostGroup(name)).status) ==> o.result == Err(HttpStatus(answer(PostGroup(name)).status))
    ensures IsSuccess(answer(PostGroup(name)).status) ==> o.result == IdFromLocation(answer(PostGroup(name)).location, "groups/")
  {
    var rep := EnsureSuccess(answer(PostGroup(name)));
    Outcome(if rep.Err? then Err(rep.fault) else IdFromLocation(rep.value.location, "groups/"), [PostGroup(name)])
  }

  method CreateGroupAsync(kc: Keycloak, name: string) returns (r: Result<string>)
    modifies kc
    ensures kc.sent == old(kc.sent) + CreateGroupOutcome(kc.answer, name).sent
    ensures r == CreateGroupOutcome(kc.answer, name).result
  {
    var response := kc.Send(PostGroup(name));
    var ok := EnsureSuccess(response);
    if ok.Err? {
      return Err(ok.fault);
    }
    r := IdFromLocation(response.location, "groups/");
  }
}
