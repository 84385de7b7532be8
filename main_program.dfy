/** The standalone entry point (package main): the same fetch, aggregation
    and write code as package deadpool, kept as its own copy, and the run
    sequence of `main`. Its credentials are package variables that start
    empty and that nothing in the package assigns. An exit with status 1 is a
    `Failure`; reaching the end of `main` is `Success(())`. */
module MainProgram {
  import opened Results
  import opened PoolManager
  import opened Api
  import opened Grades

  class Program {
    const clientId: string := ""
    const clientSecret: string := ""
    var pools: seq<PoolProject>   // poolmanager.Pools
    const net: Network

    constructor (net: Network)
      ensures this.net == net && clientId == "" && clientSecret == "" && pools == []
    {
      this.net := net;
      pools := [];
    }

    /** One GET; keeps the first record of the list. */
    method FetchProject(userId: string, projectId: string) returns (r: Result<APIProject, FetchError>)
      modifies net
      ensures r == BestRecord(net.oracle.teams(userId, projectId))
      ensures net.log == old(net.log) + [Fetch(userId, projectId)]
    {
      var reply := net.GetTeams(userId, projectId);
      match reply {
        case Unreachable =>
          r := Failure(RequestFailed);
        case Teams(records) =>
          if |records| == 0 {
            r := Failure(EmptyResponse);
          } else {
            r := Success(records[0]);
          }
      }
    }

    /** PATCH the team record, then the projects_users record, stopping at
        the first reply other than 200 or 204. */
    method UpdateProjectTeamMark(teamId: int, projectsUserId: int, mark: int) returns (r: Result<(), Error>)
      modifies net
      ensures r == Commit(net.oracle, teamId, projectsUserId, mark).result
      ensures net.log == old(net.log) + Commit(net.oracle, teamId, projectsUserId, mark).calls
    {
      var payload := Payload(mark, "finished");
      var reply := net.SendPatch(TeamRecord(teamId), payload);
      if !Accepted(reply) {
        return Failure(PatchFailed(reply));
      }
      reply := net.SendPatch(ProjectsUserRecord(projectsUserId), payload);
      if !Accepted(reply) {
        return Failure(PatchFailed(reply));
      }
      r := Success(());
    }

    /** One iteration of calculateParentMark's loop. */
    method ExamineChild(userId: string, childId: string) returns (r: Result<int, Error>)
      modifies net
      ensures r == Examine(net.oracle, userId, childId)
      ensures net.log == old(net.log) + [Fetch(userId, childId)]
    {
      var child := FetchProject(userId, childId);
      if child.Failure? {
        return Failure(ChildFetchFailed(childId, child.error));
      }
      if !child.value.validated {
        return Failure(ChildNotValidated(child.value.projectId));
      }
      r := Success(child.value.finalMark);
    }

    /** Sum the children's marks in order, returning at the first failed
        fetch or unvalidated child; then divide by the number of children. */
    method CalculateParentMark(userId: string, parentId: string) returns (r: Result<int, Error>)
      modifies net
      ensures r == ParentMark(net.oracle, userId, ProjectChildrenIds(pools, parentId)).result
      ensures net.log == old(net.log) + ParentMark(net.oracle, userId, ProjectChildrenIds(pools, parentId)).calls
    {
      var childrenIds := ProjectChildrenIds(pools, parentId);
      var mark := 0;
      if |childrenIds| == 0 {
        return Success(mark);
      }
      ghost var marks: seq<int> := [];
      var i := 0;
      while i < |childrenIds|
        invariant 0 <= i <= |childrenIds| && |marks| == i
        invariant forall j | 0 <= j < i :: Examine(net.oracle, userId, childrenIds[j]) == Success(marks[j])
        invariant mark == Sum(marks)
        invariant net.log == old(net.log) + Fetches(userId, childrenIds[..i])
      {
        var childMark := ExamineChild(userId, childrenIds[i]);
        FetchesExtend(userId, childrenIds, i);
        if childMark.Failure? {
          FirstFailureAborts(net.oracle, userId, childrenIds, i);
          return Failure(childMark.error);
        }
        mark := mark + childMark.value;
        marks := marks + [childMark.value];
        assert marks[..i] == marks[..|marks| - 1];
        i := i + 1;
      }
      AverageOfValidated(net.oracle, userId, childrenIds, marks);
      assert childrenIds[..i] == childrenIds;
      mark := GoDiv(mark, |childrenIds|);
      r := Success(mark);
    }

    /** calculateParentMark, then fetchProject on the parent itself. */
    method AssessParent(userId: string, parentId: string) returns (r: Result<Prepared, Error>)
      modifies net
      ensures r == Assess(net.oracle, userId, pools, parentId).result
      ensures net.log == old(net.log) + Assess(net.oracle, userId, pools, parentId).calls
    {
      var aggregate := CalculateParentMark(userId, parentId);
      if aggregate.Failure? {
        return Failure(aggregate.error);
      }
      var parent := FetchProject(userId, parentId);
      if parent.Failure? {
        return Failure(ParentFetchFailed(parent.error));
      }
      r := Success(Prepared(parent.value, aggregate.value));
    }

    /** main up to the update decision: load the configuration, resolve the
        parent of the given project, get a token, assess the parent. */
    method PrepareRun(userId: string, projectId: string) returns (r: Result<Prepared, Error>)
      modifies this`pools, net
      ensures r == Prepare(net.oracle, clientId, clientSecret, userId, projectId).result
      ensures net.log == old(net.log) + Prepare(net.oracle, clientId, clientSecret, userId, projectId).calls
      ensures net.oracle.config.Some? ==> pools == net.oracle.config.value
      ensures net.oracle.config.None? ==> pools == old(pools)
    {
      ghost var spec := Prepare(net.oracle, clientId, clientSecret, userId, projectId);
      var config := net.ReadConfig();
      if config.None? {
        assert spec == Run(Failure(ConfigUnreadable), [ReadConfig]);
        return Failure(ConfigUnreadable);
      }
      pools := config.value;
      var parentId := ProjectParentId(pools, projectId);
      if parentId == "" {
        assert spec == Run(Failure(UnknownModule(projectId)), [ReadConfig]);
        return Failure(UnknownModule(projectId));
      }
      var granted := net.RequestToken(clientId, clientSecret);
      if !granted {
        assert spec == Run(Failure(TokenRefused), [ReadConfig, TokenRequest(clientId, clientSecret)]);
        return Failure(TokenRefused);
      }
      ghost var assessed := Assess(net.oracle, userId, pools, parentId);
      assert spec == Run(assessed.result, [ReadConfig, TokenRequest(clientId, clientSecret)] + assessed.calls);
      r := AssessParent(userId, parentId);
    }

    /** The body of `main` for the arguments `userId` and `projectId`. */
    method MainBody(userId: string, projectId: string) returns (r: Result<(), Error>)
      modifies this`pools, net
      ensures r == MainRun(net.oracle, clientId, clientSecret, userId, projectId).result
      ensures net.log == old(net.log) + MainRun(net.oracle, clientId, clientSecret, userId, projectId).calls
      ensures net.oracle.config.Some? ==> pools == net.oracle.config.value
      ensures net.oracle.config.None? ==> pools == old(pools)
    {
      ghost var spec := MainRun(net.oracle, clientId, clientSecret, userId, projectId);
      ghost var p := Prepare(net.oracle, clientId, clientSecret, userId, projectId);
      var prepared := PrepareRun(userId, projectId);
      if prepared.Failure? {
        assert spec == Run(Failure(p.result.error), p.calls);
        return Failure(prepared.error);
      }
      ghost var decided := MainDecision(net.oracle, prepared.value);
      assert spec == Run(decided.result, p.calls + decided.calls);
      r := Decide(prepared.value);
    }

    /** The update decision, given the assessed parent. */
    method Decide(prepared: Prepared) returns (r: Result<(), Error>)
      modifies net
      ensures r == MainDecision(net.oracle, prepared).result
      ensures net.log == old(net.log) + MainDecision(net.oracle, prepared).calls
    {
      var parent, mark := prepared.parent, prepared.mark;
      if parent.finalMark > mark {
        return Failure(MarkNotHigher(parent.finalMark, mark));
      }
      if |parent.users| == 0 {
        return Failure(NoProjectsUser(parent.teamId));
      }
      r := UpdateProjectTeamMark(parent.teamId, parent.users[0].projectsUserId, mark);
    }
  }
}
