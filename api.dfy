/** The records exchanged with the grading API, and everything outside the
    process (configuration file, authorization server, API) as an oracle
    whose every use is recorded, in order, in a ghost log. */
module Api {
  import opened Results
  import opened PoolManager

  /** A member of a team, as the API lists it. */
  datatype User = User(projectsUserId: int)

  /** One team record of a user on a project. */
  datatype APIProject = APIProject(teamId: int, projectId: int, finalMark: int, validated: bool, users: seq<User>)

  /** The reply to `GET /v2/users/{user}/projects/{project}/teams?sort=-final_mark`:
      either it yields no decoded list (transport failure, a status other than 200,
      an unreadable or malformed body), or the decoded list as the server sent it. */
  datatype TeamsReply = Unreachable | Teams(records: seq<APIProject>)

  /** The reply to one PATCH: no response at all, or an HTTP status code. */
  datatype PatchReply = NoResponse | Status(code: int)

  /** The two records a new mark is written to. */
  datatype Target = TeamRecord(teamId: int) | ProjectsUserRecord(projectsUserId: int)

  /** The PATCH body `{"final_mark": ..., "status": ...}`. */
  datatype Payload = Payload(finalMark: int, status: string)

  /** One use of the outside world, in the order the program makes them. */
  datatype Call =
    | ReadConfig
    | TokenRequest(clientId: string, clientSecret: string)
    | Fetch(userId: string, projectId: string)
    | Patch(target: Target, payload: Payload)

  /** What the outside world answers. */
  datatype Oracle = Oracle(
    config: Option<seq<PoolProject>>,       // pool-list.json decoded, or None when unreadable or malformed
    grants: (string, string) -> bool,       // whether the token exchange succeeds for these credentials
    teams: (string, string) -> TeamsReply,  // the GET reply for (user id, project id)
    patch: Target -> PatchReply)            // the PATCH reply for each record

  /** A PATCH succeeded: status 200 (OK) or 204 (No Content). */
  predicate Accepted(reply: PatchReply)
  {
    reply.Status? && (reply.code == 200 || reply.code == 204)
  }

  /** The outside world as the program sees it: each method is one exchange,
      answered by the oracle and appended to `log`. */
  class Network {
    const oracle: Oracle
    ghost var log: seq<Call>

    constructor (oracle: Oracle)
      ensures this.oracle == oracle && log == []
    {
      this.oracle := oracle;
      log := [];
    }

    method ReadConfig() returns (config: Option<seq<PoolProject>>)
      modifies this
      ensures config == oracle.config
      ensures log == old(log) + [Call.ReadConfig]
    {
      config := oracle.config;
      log := log + [Call.ReadConfig];
    }

    method RequestToken(clientId: string, clientSecret: string) returns (granted: bool)
      modifies this
      ensures granted == oracle.grants(clientId, clientSecret)
      ensures log == old(log) + [TokenRequest(clientId, clientSecret)]
    {
      granted := oracle.grants(clientId, clientSecret);
      log := log + [TokenRequest(clientId, clientSecret)];
    }

    method GetTeams(userId: string, projectId: string) returns (reply: TeamsReply)
      modifies this
      ensures reply == oracle.teams(userId, projectId)
      ensures log == old(log) + [Fetch(userId, projectId)]
    {
      reply := oracle.teams(userId, projectId);
      log := log + [Fetch(userId, projectId)];
    }

    method SendPatch(target: Target, payload: Payload) returns (reply: PatchReply)
      modifies this
      ensures reply == oracle.patch(target)
      ensures log == old(log) + [Patch(target, payload)]
    {
      reply := oracle.patch(target);
      log := log + [Patch(target, payload)];
    }
  }
}
