/** The grade-aggregation decision pipeline as pure functions of the oracle:
    each returns its outcome together with the calls it makes, in order.
    The imperative entry points in deadpool.dfy and main_program.dfy are
    proved to produce exactly these outcomes and calls. */
module Grades {
  import opened Results
  import opened PoolManager
  import opened Api

  /** Why `fetchProject` failed. */
  datatype FetchError =
    | RequestFailed   // transport failure, status other than 200, unreadable or malformed body
    | EmptyResponse   // the decoded list was empty ("empty response array")

  /** Every way a run can fail. */
  datatype Error =
    | NoCredentials                                   // client id or secret not set
    | ConfigUnreadable                                // pool-list.json missing or malformed
    | UnknownModule(moduleId: string)                 // no pool lists the module
    | TokenRefused                                    // token exchange failed
    | ChildFetchFailed(childId: string, cause: FetchError)
    | ChildNotValidated(projectId: int)
    | ParentFetchFailed(cause: FetchError)
    | PatchFailed(reply: PatchReply)                  // a PATCH answered without status 200 or 204
    | MarkNotHigher(current: int, mark: int)          // main.go's abort when the parent's mark is higher
    | NoProjectsUser(teamId: int)                     // `Users[0]` on a team without users (a Go panic)

  /** An outcome together with the calls made to reach it. */
  datatype Run<+T> = Run(result: Result<T, Error>, calls: seq<Call>)

  // ---------------------------------------------------------------------
  // fetchProject: the first record of the list the server sorted by
  // descending final mark

  function BestRecord(reply: TeamsReply): (r: Result<APIProject, FetchError>)
    ensures r.Success? <==> reply.Teams? && |reply.records| > 0
    ensures r.Success? ==> r.value == reply.records[0]
    ensures reply.Unreachable? ==> r == Failure(RequestFailed)
    ensures reply.Teams? && reply.records == [] ==> r == Failure(EmptyResponse)
  {
    match reply
    case Unreachable => Failure(RequestFailed)
    case Teams(records) => if records == [] then Failure(EmptyResponse) else Success(records[0])
  }

  /** The list is ordered by descending final mark, as `sort=-final_mark` asks. */
  predicate SortedByMarkDesc(records: seq<APIProject>)
  {
    forall i | 0 < i < |records| :: records[i - 1].finalMark >= records[i].finalMark
  }

  lemma {:induction false} HeadMarkDominates(records: seq<APIProject>, k: nat)
    requires SortedByMarkDesc(records) && k < |records|
    ensures records[0].finalMark >= records[k].finalMark
  {
    if k > 0 {
      HeadMarkDominates(records, k - 1);
    }
  }

  /** On a list sorted as requested, the selected record is one of the
      records with the highest final mark; an empty list is an error, never
      a zero grade. */
  lemma BestRecordIsBest(records: seq<APIProject>)
    requires SortedByMarkDesc(records)
    ensures records == [] <==> BestRecord(Teams(records)) == Failure(EmptyResponse)
    ensures BestRecord(Teams(records)).Success? ==>
              BestRecord(Teams(records)).value in records &&
              forall p | p in records :: p.finalMark <= BestRecord(Teams(records)).value.finalMark
  {
    forall p | p in records ensures p.finalMark <= records[0].finalMark {
      var k :| 0 <= k < |records| && records[k] == p;
      HeadMarkDominates(records, k);
    }
  }

  // ---------------------------------------------------------------------
  // calculateParentMark

  /** One child's contribution: its best mark when the fetch succeeds and
      the record is validated, otherwise the error that ends the loop. */
  function Examine(o: Oracle, userId: string, childId: string): (r: Result<int, Error>)
    ensures r.Success? <==>
              BestRecord(o.teams(userId, childId)).Success? && BestRecord(o.teams(userId, childId)).value.validated
    ensures r.Success? ==> r.value == BestRecord(o.teams(userId, childId)).value.finalMark
    ensures BestRecord(o.teams(userId, childId)).Failure? ==>
              r == Failure(ChildFetchFailed(childId, BestRecord(o.teams(userId, childId)).error))
    ensures BestRecord(o.teams(userId, childId)).Success? && !BestRecord(o.teams(userId, childId)).value.validated ==>
              r == Failure(ChildNotValidated(BestRecord(o.teams(userId, childId)).value.projectId))
  {
    match BestRecord(o.teams(userId, childId))
    case Failure(e) => Failure(ChildFetchFailed(childId, e))
    case Success(child) => if !child.validated then Failure(ChildNotValidated(child.projectId)) else Success(child.finalMark)
  }

  /** The loop over the children: all their marks, or the first error and
      the number of children fetched up to and including the failing one. */
  datatype Walked = AllMarks(marks: seq<int>) | StoppedAt(error: Error, fetched: nat)

  function Walk(o: Oracle, userId: string, children: seq<string>): (r: Walked)
    ensures r.AllMarks? ==> |r.marks| == |children|
    ensures r.StoppedAt? ==> 1 <= r.fetched <= |children|
  {
    if children == [] then AllMarks([])
    else
      match Examine(o, userId, children[0])
      case Failure(e) => StoppedAt(e, 1)
      case Success(m) =>
        match Walk(o, userId, children[1..])
        case AllMarks(ms) => AllMarks([m] + ms)
        case StoppedAt(e, n) => StoppedAt(e, n + 1)
  }

  /** Characterisation of a completed walk: every child contributes, in order. */
  lemma {:induction false} WalkAllOk(o: Oracle, userId: string, children: seq<string>, marks: seq<int>)
    requires |marks| == |children|
    requires forall j | 0 <= j < |children| :: Examine(o, userId, children[j]) == Success(marks[j])
    ensures Walk(o, userId, children) == AllMarks(marks)
  {
    if children != [] {
      assert Examine(o, userId, children[0]) == Success(marks[0]);
      forall j | 0 <= j < |children| - 1
        ensures Examine(o, userId, children[1..][j]) == Success(marks[1..][j])
      {
        assert children[1..][j] == children[j + 1];
      }
      WalkAllOk(o, userId, children[1..], marks[1..]);
      assert [marks[0]] + marks[1..] == marks;
    }
  }

  /** Conversely, a completed walk means every child was fetched and validated. */
  lemma {:induction false} WalkCompleteMeans(o: Oracle, userId: string, children: seq<string>)
    requires Walk(o, userId, children).AllMarks?
    ensures forall j | 0 <= j < |children| ::
              Examine(o, userId, children[j]) == Success(Walk(o, userId, children).marks[j])
  {
    if children != [] {
      WalkCompleteMeans(o, userId, children[1..]);
      forall j | 0 <= j < |children|
        ensures Examine(o, userId, children[j]) == Success(Walk(o, userId, children).marks[j])
      {
        if j > 0 {
          assert children[1..][j - 1] == children[j];
        }
      }
    }
  }

  /** Characterisation of an aborted walk: it stops at the first child whose
      fetch fails or which is not validated, after fetching that child. */
  lemma {:induction false} WalkStopsAt(o: Oracle, userId: string, children: seq<string>, k: nat)
    requires k < |children|
    requires forall j | 0 <= j < k :: Examine(o, userId, children[j]).Success?
    requires Examine(o, userId, children[k]).Failure?
    ensures Walk(o, userId, children) == StoppedAt(Examine(o, userId, children[k]).error, k + 1)
  {
    if k > 0 {
      assert Examine(o, userId, children[0]).Success?;
      forall j | 0 <= j < k - 1 ensures Examine(o, userId, children[1..][j]).Success? {
        assert children[1..][j] == children[j + 1];
      }
      assert children[1..][k - 1] == children[k];
      WalkStopsAt(o, userId, children[1..], k - 1);
    }
  }

  /** Conversely, an aborted walk fetched only children that contributed,
      up to the failing one, whose error it reports. */
  lemma {:induction false} WalkStoppedMeans(o: Oracle, userId: string, children: seq<string>)
    requires Walk(o, userId, children).StoppedAt?
    ensures var n := Walk(o, userId, children).fetched;
            (forall j | 0 <= j < n - 1 :: Examine(o, userId, children[j]).Success?) &&
            Examine(o, userId, children[n - 1]) == Failure(Walk(o, userId, children).error)
  {
    if Examine(o, userId, children[0]).Success? {
      WalkStoppedMeans(o, userId, children[1..]);
      var n := Walk(o, userId, children).fetched;
      forall j | 0 <= j < n - 1 ensures Examine(o, userId, children[j]).Success? {
        if j > 0 {
          assert children[1..][j - 1] == children[j];
        }
      }
      assert children[1..][n - 2] == children[n - 1];
    }
  }

  /** Sum of marks, accumulated left to right. */
  function Sum(marks: seq<int>): int
  {
    if marks == [] then 0 else Sum(marks[..|marks| - 1]) + marks[|marks| - 1]
  }

  lemma {:induction false} SumBounds(marks: seq<int>, lo: int, hi: int)
    requires forall j | 0 <= j < |marks| :: lo <= marks[j] <= hi
    ensures |marks| * lo <= Sum(marks) <= |marks| * hi
  {
    if marks != [] {
      var n := |marks|;
      SumBounds(marks[..n - 1], lo, hi);
      assert (n - 1) * lo + lo == n * lo;
      assert (n - 1) * hi + hi == n * hi;
    }
  }

  /** Go's integer division `a / n`, which truncates toward zero (Dafny's
      `/` on int is Euclidean; the two differ on negative dividends). */
  function GoDiv(a: int, n: int): (r: int)
    requires n > 0
    ensures a >= 0 ==> 0 <= n * r <= a < n * (r + 1)
    ensures a < 0 ==> n * (r - 1) < a <= n * r <= 0
  {
    if a >= 0 then EuclidBracket(a, n); a / n
    else EuclidBracket(-a, n); -((-a) / n)
  }

  /** The Euclidean quotient of a non-negative dividend brackets it. */
  lemma EuclidBracket(a: int, n: int)
    requires a >= 0 && n > 0
    ensures 0 <= n * (a / n) <= a < n * (a / n + 1)
  {
    var q := a / n;
    assert a == n * q + a % n && 0 <= a % n < n;
    assert n * (q + 1) == n * q + n;
  }

  lemma MulOrder(n: int, x: int, y: int)
    requires n > 0
    ensures x <= y <==> n * x <= n * y
  {
    assert n * y - n * x == n * (y - x);
    if x <= y {
      assert n * (y - x) >= 0;
    } else {
      assert n * (x - y) > 0;
    }
  }

  lemma EuclidWithinBounds(a: int, n: int, lo: int, hi: int)
    requires a >= 0 && n > 0 && n * lo <= a <= n * hi
    ensures lo <= a / n <= hi
  {
    var q := a / n;
    assert n * q <= a < n * (q + 1) by {
      assert a == n * q + a % n && 0 <= a % n < n;
      assert n * (q + 1) == n * q + n;
    }
    MulOrder(n, q + 1, lo);
    MulOrder(n, q, hi);
  }

  /** Truncating division of a sum of n values in [lo, hi] by n lands in [lo, hi]. */
  lemma GoDivWithinBounds(a: int, n: int, lo: int, hi: int)
    requires n > 0 && n * lo <= a <= n * hi
    ensures lo <= GoDiv(a, n) <= hi
  {
    if a >= 0 {
      EuclidWithinBounds(a, n, lo, hi);
    } else {
      assert n * -hi <= -a <= n * -lo;
      EuclidWithinBounds(-a, n, -hi, -lo);
    }
  }

  /** The fetch calls for `childIds`, in order. */
  function Fetches(userId: string, childIds: seq<string>): (calls: seq<Call>)
  {
    seq(|childIds|, j requires 0 <= j < |childIds| => Fetch(userId, childIds[j]))
  }

  /** Fetching one more child extends the fetch calls by one. */
  lemma FetchesExtend(userId: string, childIds: seq<string>, i: nat)
    requires i < |childIds|
    ensures Fetches(userId, childIds[..i + 1]) == Fetches(userId, childIds[..i]) + [Fetch(userId, childIds[i])]
  {
  }

  /** calculateParentMark over the children of the parent: 0 without any
      fetch for no children, the truncated average of the children's marks
      when all are fetched and validated, else the first child's error. */
  function ParentMark(o: Oracle, userId: string, children: seq<string>): (r: Run<int>)
    ensures children == [] ==> r == Run(Success(0), [])
  {
    if children == [] then Run(Success(0), [])
    else
      match Walk(o, userId, children)
      case AllMarks(ms) =>
        assert children[..|children|] == children;
        Run(Success(GoDiv(Sum(ms), |children|)), Fetches(userId, children))
      case StoppedAt(e, n) => Run(Failure(e), Fetches(userId, children[..n]))
  }

  /** The calls calculateParentMark makes are fetches of a prefix of the
      children, in order, and of all of them when it produces a mark; no
      children means no call at all. */
  lemma ParentMarkFetchesPrefix(o: Oracle, userId: string, children: seq<string>)
    ensures var r := ParentMark(o, userId, children);
            |r.calls| <= |children| && r.calls == Fetches(userId, children[..|r.calls|])
    ensures var r := ParentMark(o, userId, children);
            children == [] ==> r == Run(Success(0), [])
    ensures var r := ParentMark(o, userId, children);
            r.result.Success? ==> |r.calls| == |children|
    ensures var r := ParentMark(o, userId, children);
            r.result.Failure? ==> 1 <= |r.calls|
  {
    assert children[..|children|] == children;
  }

  /** All children validated: the result is the truncated average of their
      best marks, after fetching every child once, in order. */
  lemma AverageOfValidated(o: Oracle, userId: string, children: seq<string>, marks: seq<int>)
    requires children != [] && |marks| == |children|
    requires forall j | 0 <= j < |children| :: Examine(o, userId, children[j]) == Success(marks[j])
    ensures ParentMark(o, userId, children) == Run(Success(GoDiv(Sum(marks), |children|)), Fetches(userId, children))
  {
    WalkAllOk(o, userId, children, marks);
  }

  /** The first child whose fetch fails or which is not validated makes the
      result its error; no child after it is fetched. */
  lemma FirstFailureAborts(o: Oracle, userId: string, children: seq<string>, k: nat)
    requires k < |children|
    requires forall j | 0 <= j < k :: Examine(o, userId, children[j]).Success?
    requires Examine(o, userId, children[k]).Failure?
    ensures ParentMark(o, userId, children) ==
              Run(Failure(Examine(o, userId, children[k]).error), Fetches(userId, children[..k + 1]))
  {
    WalkStopsAt(o, userId, children, k);
  }

  /** All or nothing: a mark is produced only when every child was fetched
      and validated. */
  lemma SuccessNeedsAllValidated(o: Oracle, userId: string, children: seq<string>)
    requires ParentMark(o, userId, children).result.Success?
    ensures forall j | 0 <= j < |children| :: Examine(o, userId, children[j]).Success?
  {
    if children != [] {
      WalkCompleteMeans(o, userId, children);
    }
  }

  /** When every child's mark lies in [lo, hi], so does the average. */
  lemma AverageWithinBounds(o: Oracle, userId: string, children: seq<string>, lo: int, hi: int)
    requires children != []
    requires forall j | 0 <= j < |children| ::
               Examine(o, userId, children[j]).Success? && lo <= Examine(o, userId, children[j]).value <= hi
    ensures ParentMark(o, userId, children).result.Success?
    ensures lo <= ParentMark(o, userId, children).result.value <= hi
  {
    var marks := seq(|children|, j requires 0 <= j < |children| => Examine(o, userId, children[j]).value);
    AverageOfValidated(o, userId, children, marks);
    SumBounds(marks, lo, hi);
    GoDivWithinBounds(Sum(marks), |children|, lo, hi);
  }

  // ---------------------------------------------------------------------
  // updateProjectTeamMark

  /** The two writes of a new mark: the team record first, then the
      projects_users record, with the same payload; it stops at the first
      reply that is not 200 or 204. */
  function Commit(o: Oracle, teamId: int, projectsUserId: int, mark: int): (r: Run<()>)
    ensures 1 <= |r.calls| <= 2
    ensures r.calls[0] == Patch(TeamRecord(teamId), Payload(mark, "finished"))
    ensures |r.calls| == 2 <==> Accepted(o.patch(TeamRecord(teamId)))
    ensures |r.calls| == 2 ==> r.calls[1] == Patch(ProjectsUserRecord(projectsUserId), Payload(mark, "finished"))
    ensures r.result.Success? <==>
              Accepted(o.patch(TeamRecord(teamId))) && Accepted(o.patch(ProjectsUserRecord(projectsUserId)))
    ensures r.result.Failure? ==> r.result.error == PatchFailed(o.patch(r.calls[|r.calls| - 1].target))
  {
    var payload := Payload(mark, "finished");
    var team := TeamRecord(teamId);
    var session := ProjectsUserRecord(projectsUserId);
    if !Accepted(o.patch(team)) then
      Run(Failure(PatchFailed(o.patch(team))), [Patch(team, payload)])
    else if !Accepted(o.patch(session)) then
      Run(Failure(PatchFailed(o.patch(session))), [Patch(team, payload), Patch(session, payload)])
    else
      Run(Success(()), [Patch(team, payload), Patch(session, payload)])
  }

  // ---------------------------------------------------------------------
  // The sequence shared by UpdatePoolParentProject and main: load the
  // configuration, resolve the parent, get a token, aggregate the
  // children, fetch the parent's own best record.

  datatype Prepared = Prepared(parent: APIProject, mark: int)

  function Prepare(o: Oracle, clientId: string, clientSecret: string, userId: string, moduleId: string): (r: Run<Prepared>)
    ensures r.calls != [] && r.calls[0] == ReadConfig
    ensures r.result.Success? ==>
              o.config.Some? && ProjectParentId(o.config.value, moduleId) != "" && o.grants(clientId, clientSecret) &&
              |r.calls| >= 3 && r.calls[1] == TokenRequest(clientId, clientSecret)
  {
    match o.config
    case None => Run(Failure(ConfigUnreadable), [ReadConfig])
    case Some(pools) =>
      var parentId := ProjectParentId(pools, moduleId);
      if parentId == "" then Run(Failure(UnknownModule(moduleId)), [ReadConfig])
      else if !o.grants(clientId, clientSecret) then Run(Failure(TokenRefused), [ReadConfig, TokenRequest(clientId, clientSecret)])
      else
        var assessed := Assess(o, userId, pools, parentId);
        Run(assessed.result, [ReadConfig, TokenRequest(clientId, clientSecret)] + assessed.calls)
  }

  /** With a token in hand: compute the parent's mark from its children,
      then fetch the parent's own best record. */
  function Assess(o: Oracle, userId: string, pools: seq<PoolProject>, parentId: string): (r: Run<Prepared>)
    ensures r.result.Success? <==>
              ParentMark(o, userId, ProjectChildrenIds(pools, parentId)).result.Success? &&
              BestRecord(o.teams(userId, parentId)).Success?
    ensures r.result.Success? ==>
              Success(r.result.value.mark) == ParentMark(o, userId, ProjectChildrenIds(pools, parentId)).result &&
              Success(r.result.value.parent) == BestRecord(o.teams(userId, parentId)) &&
              r.calls != [] && r.calls[|r.calls| - 1] == Fetch(userId, parentId)
    ensures ParentMark(o, userId, ProjectChildrenIds(pools, parentId)).result.Failure? ==>
              r == Run(Failure(ParentMark(o, userId, ProjectChildrenIds(pools, parentId)).result.error),
                       ParentMark(o, userId, ProjectChildrenIds(pools, parentId)).calls)
  {
    var aggregate := ParentMark(o, userId, ProjectChildrenIds(pools, parentId));
    match aggregate.result
    case Failure(e) => Run(Failure(e), aggregate.calls)
    case Success(mark) =>
      match BestRecord(o.teams(userId, parentId))
      case Failure(e) => Run(Failure(ParentFetchFailed(e)), aggregate.calls + [Fetch(userId, parentId)])
      case Success(parent) => Run(Success(Prepared(parent, mark)), aggregate.calls + [Fetch(userId, parentId)])
  }

  /** The credentials reach only the token request: two credential pairs
      that the token endpoint treats alike lead to the same outcome and to
      the same calls apart from the token request itself. */
  lemma CredentialsOnlyReachTheToken(o: Oracle, clientId: string, clientSecret: string,
                                     otherId: string, otherSecret: string, userId: string, moduleId: string)
    requires o.grants(clientId, clientSecret) == o.grants(otherId, otherSecret)
    ensures var p, q := Prepare(o, clientId, clientSecret, userId, moduleId), Prepare(o, otherId, otherSecret, userId, moduleId);
            p.result == q.result && |p.calls| == |q.calls| &&
            forall i | 0 <= i < |p.calls| && i != 1 :: p.calls[i] == q.calls[i]
  {
  }

  /** Nothing is written before the update decision. */
  lemma PrepareNeverWrites(o: Oracle, clientId: string, clientSecret: string, userId: string, moduleId: string)
    ensures var r := Prepare(o, clientId, clientSecret, userId, moduleId);
            forall i | 0 <= i < |r.calls| :: !r.calls[i].Patch?
  {
    var r := Prepare(o, clientId, clientSecret, userId, moduleId);
    if o.config.Some? && ProjectParentId(o.config.value, moduleId) != "" && o.grants(clientId, clientSecret) {
      var a := Assess(o, userId, o.config.value, ProjectParentId(o.config.value, moduleId));
      AssessNeverWrites(o, userId, o.config.value, ProjectParentId(o.config.value, moduleId));
      assert r.calls == [ReadConfig, TokenRequest(clientId, clientSecret)] + a.calls;
    }
  }

  /** The assessment only reads: its calls are fetches. */
  lemma AssessNeverWrites(o: Oracle, userId: string, pools: seq<PoolProject>, parentId: string)
    ensures var a := Assess(o, userId, pools, parentId);
            forall i | 0 <= i < |a.calls| :: a.calls[i].Fetch?
  {
    var children := ProjectChildrenIds(pools, parentId);
    ParentMarkFetchesPrefix(o, userId, children);
  }

  /** A module no pool lists ends the run right after the configuration is
      read: no token request and no fetch. */
  lemma UnknownModuleStopsEarly(o: Oracle, clientId: string, clientSecret: string, userId: string, moduleId: string)
    requires o.config.Some? && ProjectParentId(o.config.value, moduleId) == ""
    ensures Prepare(o, clientId, clientSecret, userId, moduleId) == Run(Failure(UnknownModule(moduleId)), [ReadConfig])
  {
  }

  /** A refused token ends the run before any fetch. */
  lemma TokenRefusalStopsEarly(o: Oracle, clientId: string, clientSecret: string, userId: string, moduleId: string)
    requires o.config.Some? && ProjectParentId(o.config.value, moduleId) != ""
    requires !o.grants(clientId, clientSecret)
    ensures Prepare(o, clientId, clientSecret, userId, moduleId) ==
              Run(Failure(TokenRefused), [ReadConfig, TokenRequest(clientId, clientSecret)])
  {
  }

  // ---------------------------------------------------------------------
  // The two update decisions

  /** UpdatePoolParentProject keeps the parent's mark when it is at least the new one. */
  predicate KeepsCurrentMark(current: int, mark: int)
  {
    current >= mark
  }

  /** main aborts only when the parent's mark is strictly higher. */
  predicate AbortsUpdate(current: int, mark: int)
  {
    current > mark
  }

  // ---------------------------------------------------------------------
  // UpdatePoolParentProject (package deadpool)

  datatype Update = AlreadyUpToDate | Updated(teamId: int, mark: int)

  function UpdatePoolParent(o: Oracle, clientId: string, clientSecret: string, userId: string, moduleId: string): (r: Run<Update>)
    ensures clientId == "" || clientSecret == "" ==> r == Run(Failure(NoCredentials), [])
  {
    if clientId == "" || clientSecret == "" then Run(Failure(NoCredentials), [])
    else
      var prepared := Prepare(o, clientId, clientSecret, userId, moduleId);
      match prepared.result
      case Failure(e) => Run(Failure(e), prepared.calls)
      case Success(p) =>
        var decided := UpdateDecision(o, p);
        Run(decided.result, prepared.calls + decided.calls)
  }

  /** UpdatePoolParentProject once the parent has been assessed: keep a
      current mark that is at least the computed one, otherwise commit the
      computed mark to the team and to its first user's projects_users record. */
  function UpdateDecision(o: Oracle, p: Prepared): (r: Run<Update>)
    ensures KeepsCurrentMark(p.parent.finalMark, p.mark) ==> r == Run(Success(AlreadyUpToDate), [])
    ensures r.result == Success(AlreadyUpToDate) ==> r.calls == []
    ensures r.result.Success? && r.result.value.Updated? ==>
              r.result.value == Updated(p.parent.teamId, p.mark) && p.parent.finalMark < p.mark
  {
    var Prepared(parent, mark) := p;
    if KeepsCurrentMark(parent.finalMark, mark) then Run(Success(AlreadyUpToDate), [])
    else if parent.users == [] then Run(Failure(NoProjectsUser(parent.teamId)), [])
    else
      var commit := Commit(o, parent.teamId, parent.users[0].projectsUserId, mark);
      Run(if commit.result.Success? then Success(Updated(parent.teamId, mark)) else Failure(commit.result.error),
          commit.calls)
  }

  /** The update decision of UpdatePoolParentProject: when the parent's
      current mark is at least the computed one, success with no write;
      otherwise the computed mark, strictly higher than the current one, is
      written to the parent's team and to its first user's projects_users
      record, and the outcome is the commit's. */
  lemma UpdatePoolParentDecision(o: Oracle, clientId: string, clientSecret: string, userId: string, moduleId: string)
    requires clientId != "" && clientSecret != ""
    requires Prepare(o, clientId, clientSecret, userId, moduleId).result.Success?
    ensures var p := Prepare(o, clientId, clientSecret, userId, moduleId);
            var parent, mark := p.result.value.parent, p.result.value.mark;
            var r := UpdatePoolParent(o, clientId, clientSecret, userId, moduleId);
            (parent.finalMark >= mark ==> r == Run(Success(AlreadyUpToDate), p.calls)) &&
            (parent.finalMark < mark && parent.users != [] ==>
               r.calls == p.calls + Commit(o, parent.teamId, parent.users[0].projectsUserId, mark).calls &&
               (r.result.Success? <==> Commit(o, parent.teamId, parent.users[0].projectsUserId, mark).result.Success?) &&
               (r.result.Success? ==> r.result.value == Updated(parent.teamId, mark)))
  {
  }

  /** Every write UpdatePoolParentProject makes carries the computed mark,
      which is strictly higher than the parent's current mark; a run that
      reports "already up to date" writes nothing. */
  lemma UpdatePoolParentOnlyRaises(o: Oracle, clientId: string, clientSecret: string, userId: string, moduleId: string)
    ensures var r := UpdatePoolParent(o, clientId, clientSecret, userId, moduleId);
            var p := Prepare(o, clientId, clientSecret, userId, moduleId);
            forall i | 0 <= i < |r.calls| && r.calls[i].Patch? ::
              p.result.Success? && r.calls[i].payload == Payload(p.result.value.mark, "finished") &&
              p.result.value.parent.finalMark < p.result.value.mark
    ensures var r := UpdatePoolParent(o, clientId, clientSecret, userId, moduleId);
            r.result == Success(AlreadyUpToDate) ==> forall i | 0 <= i < |r.calls| :: !r.calls[i].Patch?
  {
    var r := UpdatePoolParent(o, clientId, clientSecret, userId, moduleId);
    var p := Prepare(o, clientId, clientSecret, userId, moduleId);
    PrepareNeverWrites(o, clientId, clientSecret, userId, moduleId);
    if clientId != "" && clientSecret != "" && p.result.Success? {
      var parent, mark := p.result.value.parent, p.result.value.mark;
      if parent.finalMark < mark && parent.users != [] {
        var c := Commit(o, parent.teamId, parent.users[0].projectsUserId, mark);
        forall i | 0 <= i < |r.calls| && r.calls[i].Patch?
          ensures r.calls[i].payload == Payload(mark, "finished")
        {
          assert r.calls[i] == c.calls[i - |p.calls|];
        }
      }
    }
  }

  // ---------------------------------------------------------------------
  // main (the standalone entry point): no credential check of its own,
  // abort on a strictly higher current mark, write otherwise.

  function MainRun(o: Oracle, clientId: string, clientSecret: string, userId: string, projectId: string): (r: Run<()>)
    ensures var p := Prepare(o, clientId, clientSecret, userId, projectId);
            p.result.Failure? ==> r == Run(Failure(p.result.error), p.calls)
    ensures var p := Prepare(o, clientId, clientSecret, userId, projectId);
            p.result.Success? && p.result.value.parent.finalMark > p.result.value.mark ==>
              r == Run(Failure(MarkNotHigher(p.result.value.parent.finalMark, p.result.value.mark)), p.calls)
  {
    var prepared := Prepare(o, clientId, clientSecret, userId, projectId);
    match prepared.result
    case Failure(e) => Run(Failure(e), prepared.calls)
    case Success(p) =>
      var decided := MainDecision(o, p);
      Run(decided.result, prepared.calls + decided.calls)
  }

  /** main once the parent has been assessed: abort on a strictly higher
      current mark, otherwise commit the computed mark. */
  function MainDecision(o: Oracle, p: Prepared): (r: Run<()>)
    ensures AbortsUpdate(p.parent.finalMark, p.mark) ==> r == Run(Failure(MarkNotHigher(p.parent.finalMark, p.mark)), [])
    ensures r.result.Success? ==> p.parent.finalMark <= p.mark && p.parent.users != [] && |r.calls| == 2
    ensures !AbortsUpdate(p.parent.finalMark, p.mark) && p.parent.users != [] ==>
              r == Commit(o, p.parent.teamId, p.parent.users[0].projectsUserId, p.mark)
  {
    var Prepared(parent, mark) := p;
    if AbortsUpdate(parent.finalMark, mark) then Run(Failure(MarkNotHigher(parent.finalMark, mark)), [])
    else if parent.users == [] then Run(Failure(NoProjectsUser(parent.teamId)), [])
    else Commit(o, parent.teamId, parent.users[0].projectsUserId, mark)
  }

  /** main ends normally exactly when the parent's current mark is at most
      the computed one, the parent has a user, and both PATCHes are accepted. */
  lemma MainRunSucceeds(o: Oracle, clientId: string, clientSecret: string, userId: string, projectId: string)
    ensures var p := Prepare(o, clientId, clientSecret, userId, projectId);
            MainRun(o, clientId, clientSecret, userId, projectId).result.Success? <==>
              p.result.Success? && p.result.value.parent.finalMark <= p.result.value.mark && p.result.value.parent.users != [] &&
              Commit(o, p.result.value.parent.teamId, p.result.value.parent.users[0].projectsUserId, p.result.value.mark).result.Success?
  {
  }

  /** Every write main makes carries the computed mark, which is at least
      the parent's current mark (not necessarily higher). */
  lemma MainNeverLowers(o: Oracle, clientId: string, clientSecret: string, userId: string, projectId: string)
    ensures var r := MainRun(o, clientId, clientSecret, userId, projectId);
            var p := Prepare(o, clientId, clientSecret, userId, projectId);
            forall i | 0 <= i < |r.calls| && r.calls[i].Patch? ::
              p.result.Success? && r.calls[i].payload == Payload(p.result.value.mark, "finished") &&
              p.result.value.parent.finalMark <= p.result.value.mark
  {
    var r := MainRun(o, clientId, clientSecret, userId, projectId);
    var p := Prepare(o, clientId, clientSecret, userId, projectId);
    PrepareNeverWrites(o, clientId, clientSecret, userId, projectId);
    if p.result.Success? {
      var parent, mark := p.result.value.parent, p.result.value.mark;
      if parent.finalMark <= mark && parent.users != [] {
        var c := Commit(o, parent.teamId, parent.users[0].projectsUserId, mark);
        forall i | 0 <= i < |r.calls| && r.calls[i].Patch?
          ensures r.calls[i].payload == Payload(mark, "finished")
        {
          assert r.calls[i] == c.calls[i - |p.calls|];
        }
      }
    }
  }

  /** On equal marks the two entry points part ways. UpdatePoolParentProject,
      given any credentials the token endpoint treats like main's empty ones,
      reports success without writing; main, with its empty credentials,
      writes the (unchanged) mark to the team record. */
  lemma EqualMarksDiverge(o: Oracle, clientId: string, clientSecret: string, userId: string, moduleId: string)
    requires clientId != "" && clientSecret != ""
    requires o.grants("", "") == o.grants(clientId, clientSecret)
    requires Prepare(o, "", "", userId, moduleId).result.Success?
    requires var p := Prepare(o, "", "", userId, moduleId).result.value;
             p.parent.finalMark == p.mark && p.parent.users != []
    ensures var p := Prepare(o, clientId, clientSecret, userId, moduleId);
            UpdatePoolParent(o, clientId, clientSecret, userId, moduleId) == Run(Success(AlreadyUpToDate), p.calls)
    ensures var p := Prepare(o, "", "", userId, moduleId);
            var parent := p.result.value.parent;
            var r := MainRun(o, "", "", userId, moduleId);
            |r.calls| > |p.calls| && r.calls[|p.calls|] == Patch(TeamRecord(parent.teamId), Payload(parent.finalMark, "finished"))
  {
    CredentialsOnlyReachTheToken(o, "", "", clientId, clientSecret, userId, moduleId);
  }

  /** Past the shared preparation, UpdatePoolParentProject and main (with
      its empty credentials) make the same calls exactly when the parent's
      current mark differs from the computed one. When the current mark is
      lower they also succeed or fail together; when it is higher neither
      writes, but UpdatePoolParentProject succeeds and main fails. */
  lemma DecisionsDifferOnlyOnEqualMarks(o: Oracle, clientId: string, clientSecret: string, userId: string, moduleId: string)
    requires clientId != "" && clientSecret != ""
    requires o.grants("", "") == o.grants(clientId, clientSecret)
    requires Prepare(o, "", "", userId, moduleId).result.Success?
    requires Prepare(o, "", "", userId, moduleId).result.value.parent.users != []
    ensures var pd, pm := Prepare(o, clientId, clientSecret, userId, moduleId), Prepare(o, "", "", userId, moduleId);
            var d, m := UpdatePoolParent(o, clientId, clientSecret, userId, moduleId), MainRun(o, "", "", userId, moduleId);
            |pd.calls| <= |d.calls| && |pm.calls| <= |m.calls| &&
            (d.calls[|pd.calls|..] == m.calls[|pm.calls|..] <==> pm.result.value.parent.finalMark != pm.result.value.mark)
    ensures var pm := Prepare(o, "", "", userId, moduleId);
            pm.result.value.parent.finalMark < pm.result.value.mark ==>
              (UpdatePoolParent(o, clientId, clientSecret, userId, moduleId).result.Success? <==>
               MainRun(o, "", "", userId, moduleId).result.Success?)
    ensures var pm := Prepare(o, "", "", userId, moduleId);
            pm.result.value.parent.finalMark > pm.result.value.mark ==>
              UpdatePoolParent(o, clientId, clientSecret, userId, moduleId).result.Success? &&
              MainRun(o, "", "", userId, moduleId).result.Failure?
  {
    CredentialsOnlyReachTheToken(o, "", "", clientId, clientSecret, userId, moduleId);
  }

  // ---------------------------------------------------------------------
  // Worked runs: pool "P" with children "A" (70, validated) and "B" (90,
  // validated or not); the parent's best record has `parentMark`.

  function ExampleOracle(bValidated: bool, parentMark: int): Oracle
  {
    Oracle(
      Some([PoolProject("Pool", "P", ["A", "B"])]),
      (clientId, clientSecret) => true,
      (userId, projectId) =>
        if projectId == "A" then Teams([APIProject(1, 10, 70, true, [User(11)])])
        else if projectId == "B" then Teams([APIProject(2, 20, 90, bValidated, [User(21)]), APIProject(4, 20, 50, true, [User(41)])])
        else Teams([APIProject(3, 30, parentMark, false, [User(31)])]),
      target => Status(204))
  }

  lemma ExampleWalk(bValidated: bool, parentMark: int)
    ensures Walk(ExampleOracle(bValidated, parentMark), "u", ["A", "B"]) ==
              if bValidated then AllMarks([70, 90]) else StoppedAt(ChildNotValidated(20), 2)
    ensures Fetches("u", ["A", "B"]) == [Fetch("u", "A"), Fetch("u", "B")]
  {
    assert ["A", "B"][1..] == ["B"];
    assert ["B"][1..] == [];
    assert ["A", "B"][..2] == ["A", "B"];
  }

  /** (70 + 90) / 2 = 80 beats 60: UpdatePoolParentProject writes 80 to
      team 3 and to projects_users record 31, after fetching A, B and P. */
  lemma ExampleRaisesParent()
    ensures UpdatePoolParent(ExampleOracle(true, 60), "id", "secret", "u", "A") ==
              Run(Success(Updated(3, 80)),
                  [ReadConfig, TokenRequest("id", "secret"), Fetch("u", "A"), Fetch("u", "B"), Fetch("u", "P"),
                   Patch(TeamRecord(3), Payload(80, "finished")), Patch(ProjectsUserRecord(31), Payload(80, "finished"))])
  {
    ExampleWalk(true, 60);
    assert Sum([70, 90]) == 160 by {
      assert [70, 90][..1] == [70];
      assert [70][..0] == [];
    }
  }

  /** B not validated: the run fails after fetching A and B, writing nothing. */
  lemma ExampleUnvalidatedChild()
    ensures UpdatePoolParent(ExampleOracle(false, 60), "id", "secret", "u", "A") ==
              Run(Failure(ChildNotValidated(20)), [ReadConfig, TokenRequest("id", "secret"), Fetch("u", "A"), Fetch("u", "B")])
  {
    ExampleWalk(false, 60);
  }

  /** A parent already at 85 keeps its mark: success, nothing written. */
  lemma ExampleAlreadyUpToDate()
    ensures UpdatePoolParent(ExampleOracle(true, 85), "id", "secret", "u", "A") ==
              Run(Success(AlreadyUpToDate), [ReadConfig, TokenRequest("id", "secret"), Fetch("u", "A"), Fetch("u", "B"), Fetch("u", "P")])
  {
    ExampleWalk(true, 85);
    assert Sum([70, 90]) == 160 by {
      assert [70, 90][..1] == [70];
      assert [70][..0] == [];
    }
  }
}
