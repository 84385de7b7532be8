# Dead pool: grade propagation for pool projects, in Dafny

The program updates a parent "pool" project's grade on the 42 intranet API from its child modules' grades. For one `(user, module)` request it does the following:

1. It reads the pool hierarchy (`pool-list.json`) and finds the module's parent.
2. It obtains an access token.
3. It fetches each child's best team record (the server sorts the list by descending `final_mark`; the first element is taken).
4. It averages the marks, all or nothing. Every child must be validated. The sum is divided by the child count with Go's truncating division.
5. It fetches the parent's own best record.
6. It decides whether to write. If so, it PATCHes the team record, then the `projects_users` record, with `{final_mark, status: "finished"}`.

The repository holds this pipeline twice: in package `deadpool` (`UpdatePoolParentProject`) and in the older standalone `main`. The two differ in their credential check and in the update decision.

The model is organised as follows:

- `poolmanager.dfy` (module `PoolManager`): the hierarchy records and the two first-match lookups, as pure functions over the loaded `Pools` sequence.
- `api.dfy` (module `Api`): the API records (`APIProject`, `User`) and the outside world.
  - The outside world is an `Oracle` value. It holds the decoded configuration (or none), whether a token is granted, the GET reply for each (user, project), and the PATCH reply for each record.
  - Class `Network` answers from the oracle. It appends every exchange to a ghost `log` of `Call`s: the config read, the token request, the fetches and the PATCHes, in order.
- `grades.dfy` (module `Grades`): the pipeline as pure functions returning `Run(result, calls)`, and the lemmas about them.
  - The functions cover the record selection, the child walk, the average, the two-step commit, the sequence shared by both entry points (`Prepare`), and the two pipelines (`UpdatePoolParent`, `MainRun`).
- `deadpool.dfy` (class `DeadPool.DeadPool`): package `deadpool`.
  - The package variables `clientID`/`clientSecret` and `poolmanager.Pools` are fields.
  - Each remote-facing function is a method proved to produce exactly the result and the log extension of its specification function. The credential setters only replace their field.
  - `calculateParentMark` keeps its loop. The invariant ties the running `mark` to the sum of the marks seen so far, and the log to the fetches made so far.
- `main_program.dfy` (class `MainProgram.Program`): package `main`, its own copy of the same functions, and `MainBody` for the body of `main`.
- `results.dfy`: `Option` and `Result`.

In these places the program behaves as follows:

- When the parent's mark is higher than the computed one, `main` exits with status 1 (`Failure(MarkNotHigher(..))`). It is not a successful no-op. On equal marks, `main` writes.
- `deadpool` checks the credentials before it reads the configuration.
- The PATCH error does not say which of the two records failed (`PatchFailed(reply)`). The log shows how far the writes got.
- `main` never assigns its `clientID`/`clientSecret`, so its token request always carries two empty strings (the constant fields `Program.clientId` and `Program.clientSecret`). `EqualMarksDiverge` and `DecisionsDifferOnlyOnEqualMarks` compare `main` in exactly that form. Whether a token is granted is still up to the oracle.

## Model

| member | source | states |
|---|---|---|
| PoolManager.ProjectParentId | poolmanager/utils.go:34-41 | the result is the `ParentID` of the first pool, in order, whose children contain the module (later pools are ignored), and "" when no pool lists it |
| PoolManager.ProjectChildrenIds | poolmanager/utils.go:43-50 | the result is exactly the children sequence, order kept, of the first pool whose `ParentID` matches, and empty (nil) when none does |
| PoolManager.ParentListsChild | poolmanager/utils.go:34-50 | with unique parent ids, a module resolved to parent p is among the children listed for p |
| Api.Network.ReadConfig | poolmanager/utils.go:19-32 | reading the configuration yields the oracle's decoded pools or a failure, and is logged |
| Api.Network.RequestToken | deadpool/deadpool.go:84-121 | the token exchange succeeds as the oracle says for these credentials, and is logged with them |
| Api.Network.GetTeams | deadpool/deadpool.go:124-153 | one GET of a user's teams on a project, answered by the oracle and logged |
| Api.Network.SendPatch | deadpool/deadpool.go:175-196 | one PATCH of a record with a payload, answered by the oracle and logged |
| Grades.BestRecord | deadpool/deadpool.go:124-158 | selection succeeds exactly on a non-empty decoded list and yields its element 0; a failed request is the request error, an empty list the "empty response array" error |
| Grades.BestRecordIsBest | deadpool/deadpool.go:124-158 | on a list sorted by descending mark, as the query requests, the selected record has the highest mark of the list; an empty list is an error, never a zero grade |
| Grades.Examine | deadpool/deadpool.go:230-238 | a child contributes its best record's `FinalMark` exactly when the fetch succeeds and the record is validated; a failed fetch yields the child-fetch error naming the child, an unvalidated record the error naming that record's `ProjectId` |
| Grades.Walk | deadpool/deadpool.go:229-239 | the loop yields one mark per child, or stops after fetching between 1 and all of the children |
| Grades.WalkAllOk | deadpool/deadpool.go:229-239 | when every child contributes, the loop yields their marks, in order |
| Grades.WalkCompleteMeans | deadpool/deadpool.go:229-239 | a loop that completes had every child fetched and validated, and its marks are theirs |
| Grades.WalkStopsAt | deadpool/deadpool.go:229-237 | the loop stops at the first failing or unvalidated child k, with that child's error, having fetched exactly k+1 children |
| Grades.WalkStoppedMeans | deadpool/deadpool.go:229-237 | a stopped loop reports the error of the last child it fetched, and every child before that one contributed |
| Grades.SumBounds | deadpool/deadpool.go:238 | n marks in [lo, hi] add up to a sum in [n*lo, n*hi] |
| Grades.GoDiv | deadpool/deadpool.go:240 | Go's `/` truncates toward zero: for a >= 0 the quotient r has n*r <= a < n*(r+1), for a < 0 it has n*(r-1) < a <= n*r <= 0 |
| Grades.GoDivWithinBounds | deadpool/deadpool.go:240 | Go's truncating division of a sum of n values in [lo, hi] by n stays in [lo, hi] |
| Grades.ParentMark | deadpool/deadpool.go:222-242 | no children gives 0 with no call |
| Grades.ParentMarkFetchesPrefix | deadpool/deadpool.go:222-241 | the calls are fetches of a prefix of the children, in order; no children gives (0, nil) with no fetch; a mark means every child was fetched; an error comes after at least one fetch |
| Grades.AverageOfValidated | deadpool/deadpool.go:229-241 | with every child fetched and validated, the result is (sum of marks) / len(children), truncated, after one fetch per child in order |
| Grades.FirstFailureAborts | deadpool/deadpool.go:229-237 | the first child whose fetch fails or which is unvalidated makes the result its error; no later child is fetched |
| Grades.SuccessNeedsAllValidated | deadpool/deadpool.go:229-241 | all or nothing: a mark is produced only when every child was fetched and validated |
| Grades.AverageWithinBounds | deadpool/deadpool.go:238-240 | if every child's mark lies in [lo, hi], a mark is produced and lies in [lo, hi] |
| Grades.Commit | deadpool/deadpool.go:161-219 | one or two PATCHes: team first, then projects_users, both with {final_mark: mark, status: "finished"}; the second only if the first got 200/204; success iff both got 200/204; the error carries the failing reply |
| Grades.Prepare | deadpool/deadpool.go:261-284 | the configuration is read first; the shared sequence reaches the update decision only with a loaded configuration, a known module and a granted token, after the token request with the given credentials |
| Grades.Assess | deadpool/deadpool.go:276-284 | success exactly when the aggregation and the parent fetch both succeed, with the aggregated mark and the parent's best record, the parent fetch being the last call; an aggregation error is returned with the aggregation's calls only |
| Grades.CredentialsOnlyReachTheToken | deadpool/deadpool.go:261-284 | two credential pairs that the token endpoint treats alike give the same outcome and the same calls, except the token request |
| Grades.PrepareNeverWrites | deadpool/deadpool.go:261-284 | nothing is written before the update decision |
| Grades.UnknownModuleStopsEarly | deadpool/deadpool.go:266-269 | an unknown module (parent "") fails right after the configuration is read, before the token request and any fetch |
| Grades.TokenRefusalStopsEarly | deadpool/deadpool.go:271-274 | a refused token fails before any fetch |
| Grades.UpdatePoolParent | deadpool/deadpool.go:257-259 | an empty client id or secret fails before the configuration is read or any call is made |
| Grades.UpdateDecision | deadpool/deadpool.go:286-296 | after the parent has been assessed: a current mark >= the computed one gives "already up to date" with no call, and that outcome never has a call; "updated" names the parent's team and a computed mark strictly above the current one |
| Grades.UpdatePoolParentDecision | deadpool/deadpool.go:286-296 | if the parent's mark is >= the computed one: success with no further call; otherwise the commit of the computed mark to the parent's team and its first user's projects_users record, and "updated" exactly when the commit succeeds |
| Grades.UpdatePoolParentOnlyRaises | deadpool/deadpool.go:286-294 | every PATCH carries the computed mark, strictly above the parent's current mark; an "already up to date" run writes nothing |
| Grades.MainRun | main.go:200-247 | a failure before the decision ends the run with its calls; a parent mark strictly higher than the computed one aborts with the "update aborted" error and no write |
| Grades.MainDecision | main.go:238-246 | after the parent has been assessed: a strictly higher current mark aborts with no call; otherwise, when the parent has a user, the outcome and calls are exactly the commit's: the team PATCH, then the projects_users PATCH, both with the computed mark; success needs a current mark <= the computed one and a user on the parent |
| Grades.MainRunSucceeds | main.go:200-247 | `main` ends normally exactly when the preparation succeeds, the parent's mark is <= the computed one, the parent has a user and both PATCHes are accepted |
| Grades.MainNeverLowers | main.go:238-246 | every PATCH main makes carries the computed mark, which is >= (not necessarily >) the parent's current mark |
| Grades.EqualMarksDiverge | main.go:238-242 | on equal marks, UpdatePoolParentProject (with any credentials the token endpoint treats like main's empty ones) succeeds without writing, while main, with its empty credentials, PATCHes the team record with the same mark |
| Grades.DecisionsDifferOnlyOnEqualMarks | main.go:238-246 | past the shared preparation, UpdatePoolParentProject and main (empty credentials) make the same calls exactly when the parent's mark differs from the computed one; when it is lower they also succeed or fail together; when it is higher UpdatePoolParentProject succeeds and main fails |
| Grades.ExampleRaisesParent | deadpool/deadpool.go:255-297 | children marked 70 and 90, both validated, and a parent at 60: the mark 80 is written to the team and then the projects_users record, after the fetches of A, B and P |
| Grades.ExampleUnvalidatedChild | deadpool/deadpool.go:229-237 | with child B unvalidated, the run fails with B's project id after fetching A and B, and writes nothing |
| Grades.ExampleAlreadyUpToDate | deadpool/deadpool.go:286-290 | a parent already at 85 against a computed 80: success, nothing written |
| DeadPool.DeadPool.constructor | deadpool/deadpool.go:17-18 | the credentials start empty |
| DeadPool.DeadPool.SetClientId | deadpool/deadpool.go:71-73 | the client id is replaced |
| DeadPool.DeadPool.SetClientSecret | deadpool/deadpool.go:67-69 | the client secret is replaced |
| DeadPool.DeadPool.FetchProject | deadpool/deadpool.go:124-159 | returns the selected best record of the reply, or its error, after exactly one logged fetch |
| DeadPool.DeadPool.UpdateProjectTeamMark | deadpool/deadpool.go:161-220 | returns the commit's outcome and logs exactly its PATCHes, in order |
| DeadPool.DeadPool.ExamineChild | deadpool/deadpool.go:230-237 | one loop iteration: one fetch, then the child's mark or its fetch/validation error |
| DeadPool.DeadPool.CalculateParentMark | deadpool/deadpool.go:222-242 | the loop returns the specified mark or error for the parent's configured children and logs exactly the specified fetches; the invariant keeps `mark` equal to the sum of the marks seen so far |
| DeadPool.DeadPool.PrepareUpdate | deadpool/deadpool.go:261-284 | config load, parent lookup, token, aggregation and parent fetch give the specified outcome and calls, and `Pools` becomes the loaded configuration when it is read, and is unchanged otherwise |
| DeadPool.DeadPool.DecideUpdate | deadpool/deadpool.go:286-296 | the update decision gives the outcome of `UpdateDecision` and logs exactly its PATCHes |
| DeadPool.DeadPool.AssessParent | deadpool/deadpool.go:276-284 | the aggregation, then the parent fetch, with the specified outcome and calls |
| DeadPool.DeadPool.UpdatePoolParentProject | deadpool/deadpool.go:255-297 | the whole run returns the outcome of `UpdatePoolParent` and extends the log by exactly its calls; `Pools` becomes the loaded configuration when the credentials are set and it is read, and is unchanged otherwise |
| MainProgram.Program.constructor | main.go:16-17 | the credentials are the constant empty strings, and `Pools` starts empty |
| MainProgram.Program.FetchProject | main.go:84-119 | returns the selected best record of the reply, or its error, after exactly one logged fetch |
| MainProgram.Program.UpdateProjectTeamMark | main.go:121-178 | returns the commit's outcome and logs exactly its PATCHes, in order |
| MainProgram.Program.ExamineChild | main.go:187-193 | one loop iteration: one fetch, then the child's mark or its fetch/validation error |
| MainProgram.Program.CalculateParentMark | main.go:180-198 | the loop returns the specified mark or error and logs exactly the specified fetches |
| MainProgram.Program.AssessParent | main.go:226-236 | the aggregation, then the parent fetch, with the specified outcome and calls |
| MainProgram.Program.Decide | main.go:238-246 | the decision at the end of `main` gives the outcome of `MainDecision` and logs exactly its PATCHes |
| MainProgram.Program.PrepareRun | main.go:206-236 | config load, parent lookup, token (with the empty credentials), aggregation and parent fetch give the specified outcome and calls; `Pools` becomes the loaded configuration when it is read, and is unchanged otherwise |
| MainProgram.Program.MainBody | main.go:200-247 | the body of `main` returns the outcome of `MainRun` and extends the log by exactly its calls: abort when the parent's mark is strictly higher, write otherwise; `Pools` becomes the loaded configuration when it is read, and is unchanged otherwise |

## Left out

- HTTP transport, URL formatting, headers and the bearer token string. A token is only "granted or not" (`Oracle.grants`). Failures to build a request are not modelled.
- JSON encoding and decoding. This covers `extractAccessToken`, the `json.Unmarshal` of team lists, the `json.Marshal` of the PATCH payload (it cannot fail for this map), and `LoadConfig`'s decoding.
- The GET outcomes are collapsed to two. A transport error, a non-200 status, an unreadable body or a malformed body is `Unreachable`. Otherwise the reply is the decoded list.
- `LoadConfig`'s file read is the oracle's `config`. Its effect of overwriting `Pools` is kept, as the assignment to the `pools` field.
- DeadPool.DeadPool.PrepareUpdate and MainProgram.Program.PrepareRun: a file that `json.Unmarshal` decodes partly before failing may leave `Pools` partly overwritten; the model leaves `pools` unchanged whenever the configuration cannot be read.
- Logging and printing: `InitLogs`, `CloseLogs`, `SetLogLevel`, `Init` (credential setters plus log setup), `CheckPoolProject` (a wrapper that prints or logs the error), the logrus calls and `fmt.Printf`. Apart from `Init`, they do not change control flow.
- `Init` also exits the process when the log file cannot be opened (deadpool/deadpool.go:60-64). That happens before any run and is not modelled.
- The 501 ms `time.Sleep` after every remote call. Each logged remote call stands for the call and its delay; the configuration read has no delay.
- `os.Args` parsing (main.go:201-204). `os.Exit(1)` and `log.Fatalf` are `Failure` results.
- The zero `APIProject` and the 0 mark returned beside an error are folded into `Failure`.
- Go's panic on `parent.Users[0]` with an empty `Users` list is the explicit error `NoProjectsUser`. It is raised after the decision and before any PATCH.
- 64-bit wrap-around of the sum of marks. Marks are unbounded integers, because realistic sums (marks of at most a few hundred over a handful of children) are far from Go's `int` range.
