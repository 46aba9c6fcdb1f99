# A verified model of the agentic firewall

The firewall stands between an agent and an MCP server. It authenticates a session, limits the rate,
classifies and authorises the tool, checks that the live tool definition is the approved one, scans the
input, asks the tool's circuit breaker, calls the tool, scans the output and audits the decision.
This project models that engine in Dafny and proves what it keeps, for single calls and for whole runs
in which requests, approvals and upstream answers interleave.

## How it is laid out

| file | what it holds |
|---|---|
| `Basics.dfy`, `Json.dfy` | text as Python sees it (code points, lone surrogates included), JSON values, equality up to key order |
| `Scanner.dfy` | the budgeted, depth-limited, early-stopping walk as a class, and its reading as a cut of a document-order stream |
| `JsonText.dfy` | how text is printed: UTF-16 escapes, and which texts print alike |
| `Canonical.dfy` | `json.dumps` with sorted keys as printing after sorting, and exactly which values it tells apart |
| `CanonicalForm.dfy` | the form of that text: keys in order, plain ASCII, escapes, separators |
| `JsonParser.dfy` | a JSON parser, and that it undoes the serialisation |
| `Integrity.dfy` | fingerprints, pins, `approve` and `verify` |
| `RateLimiter.dfy`, `LimiterTheorems.dfy` | the deque-and-sweep limiter as a class, proved against a count over the full history; window bound, when a closed window is overfull, exact `retry_after`, optimality |
| `CircuitBreaker.dfy` | the breaker and its registry as classes; state from history, load bounds |
| `Probes.dfy` | calls with identities: when at most one probe is out |
| `Database.dfy`, `Authentication.dfy` | the tables, and the session life cycle against its history |
| `Risk.dfy` | name splitting and most-dangerous-wins |
| `Gateway.dfy` | the three atomic segments of a request as tables of guards in order; approval; discovery |
| `GatewayAnswers.dfy` | what each segment answers, records and changes, spelled out condition by condition and field by field |
| `Firewall.dfy` | the firewall as a class that runs those segments over its components |
| `GatewayTheorems.dfy` | approval batches, listings, failing audit |
| `GatewayRuns.dfy` | the run machine: worlds, actions, the record of events, and the shapes a step can have |
| `RunBreakers.dfy`, `RunQuotas.dfy`, `RunPins.dfy`, `RunSessions.dfy`, `RunAnswers.dfy`, `RunRequests.dfy` | what every step keeps |
| `RunTheorems.dfy` | what holds in every run |
| `RunAccess.dfy` | in every run: who gets a session, and who gets in with one |
| `RunLoads.dfy`, `RunProbes.dfy` | load, spacing and probes of one tool in every run |

A request is suspended twice, at the fetch of the tool list and at the tool call. What runs between two
suspensions is atomic and is one function (`Entry`, `AfterTools`, `AfterReply` in `Gateway`). The methods of
`Firewall` are proved equal to these functions, and the run machine is built from them. The upstream is an
adversary: it may answer each fetch with any list, and each call with any response, an error, a timeout or a
cancellation. Any component call may raise; `faults` says where, for requests and for approval batches. Logins
and revocations are steps of a run too, and users may be added or changed between steps. Each segment reads the clocks once; the
monotonic clock never goes back, and the wall clock is arbitrary.

## Results to read first

- `RunTheorems.CalledToolsAreClean`, `ListedToolsAreClean`: no run calls a tool, or shows it to an agent, whose live definition is not the approved, scanned one.
- `RunTheorems.Conservation`, `ProbeIsOut`: the contract of the breaker is discharged by the gateway on every exit.
- `Probes.OneProbeIff`, `RunProbes.OneProbeInRun`: one probe at a time exactly if calls time out before the cooldown is over. `RunLoads.LoadInRun`: what a failing tool still gets.
- `RunTheorems.FailClosed`, `CallsPerWindow`: one answer and one audit attempt a request, the one its own segments gave; an allowed one holds the very response of its own call; quotas bound upstream calls. `GatewayAnswers.EntryAnswers`, `CallAnswers`, `ReplyAnswers`: each answer, field by field.
- `RunTheorems.AllowedSessionsAreLive`, `SessionsGateRequests`, `RunAccess.SignInsAreEarned`, `AccessIsEarned`: the session history decides who gets in, and only the right key makes history.
- `Risk.ClassifyIsMostDangerous`, `WordsAreMaximal`: the risk of every name.
- `LimiterTheorems.GreedyStaysAhead`: no schedule that keeps the quota admits more, or anything earlier.
- `Scanning.Verdict` and `ScanIsCutStream`, `Canonical.DumpIsExact`, `JsonParser.ParseUndoesDump`, `Integrity.FingerprintIsExact` and `FingerprintCarriesVerdictIff`.

## Where the code says less than its documentation

The model follows the code. A promise that is false has a lemma with a concrete input, and the exact statement beside it.

- "HALF_OPEN lets exactly one probe through" (`app/firewall/circuit_breaker.py:4`) holds for each half-open episode
  (`BreakerTheorems.StateIsHistory`). Across episodes it holds exactly if calls are never out as long as the cooldown:
  with a time limit T on a call, every history has at most one probe out if and only if T < cooldown
  (`Probes.OneProbeIff`; in runs, `RunProbes.OneProbeInRun`). Otherwise a late failure ends an episode while its probe
  is still running, and a second probe joins it (`Probes.TwoProbesInFlight`). The limit is `upstream_timeout_seconds`
  (`app/firewall/gateway.py:188-191`); the defaults are 30 and 30 (`app/models/policies.py:67`, `:77`), so the
  promise fails for them.
- "(cooldown elapsed)" (`app/firewall/circuit_breaker.py:3`) is not the only way out of OPEN: an open breaker closes exactly
  on a success of a call let through no later than the trip (`Probes.OnlyLateSuccessCloses`), and every configuration has such
  a history (`BreakerTheorems.LateSuccessCloses`).
- "At most `max_requests` per `window_seconds`" (`app/firewall/rate_limiter.py:24`) holds for half-open windows
  (`LimiterTheorems.WindowBound`); a closed window can hold more (`ClosedWindowHoldsMore`), and does exactly if
  two admitted checks with the quota between them are exactly one window apart (`ClosedWindowOverfull`).
- "Block on any change" (`app/firewall/integrity.py:1`): an astral character and its pair of surrogates print alike.
  For all definitions, two share a fingerprint if and only if they are the same once object keys are sorted and split
  pairs joined (`Integrity.FingerprintIsExact`); without split pairs that is equality up to key order
  (`FingerprintIgnoresOnlyOrder`). Two definitions of one fingerprint get the same verdict from every scanner if and
  only if their texts, as they stand, are the same and weigh the same (`FingerprintCarriesVerdictIff`); with a split
  pair that can fail (`SplitPairsCarryNoVerdict`).
- "The most dangerous match wins" (`app/firewall/risk.py:9`): adding words never lowers the risk if and only if some list
  already applied; a name no list knows is MEDIUM and a harmless verb makes it LOW (`Risk.MoreWordsNeverLowerRisk`;
  for names in any convention, `LongerNameNeverLowersRisk`).
- "Every decision is audited" (`app/firewall/gateway.py:8`) holds for requests that return; a cancelled request leaves no
  record (`app/firewall/gateway.py:119` catches `Exception` only). In an approval batch nothing guards the audit call
  (`app/firewall/gateway.py:252`): if it raises, the tool is pinned and no record says so (`GatewayTheorems.UnauditedPin`).
- The repository's `README.md:59` says sessions are in memory; the code keeps them in the sessions table, and so does the model.

## Model

| member | source | states |
|---|---|---|
| RunTheorems.CalledToolsAreClean | app/firewall/gateway.py:157-169 | in every run, each upstream call is for the only definition of its name in the list that request fetched; it has the fingerprint of the definition approved last before the call, which someone who may manage approved, no text of which any rule for descriptions hit, and which was within depth and budget; the two are the same once keys are sorted and split pairs joined; every scanner judges them alike iff they hold the same texts of the same weight, and then the live one passes that scan itself, as it does without split pairs |
| RunTheorems.ListedToolsAreClean | app/firewall/gateway.py:276-287 | in every run, for any fetched list, each entry shown to a role that may not manage is that of a fetched definition the role may use and that is trusted, as above, against the last approval of its name |
| RunTheorems.Conservation | app/firewall/gateway.py:176-202 | at every point of every run, per tool, calls let through minus reports made is the number of requests suspended at the upstream, on success, tool error, exception, timeout and cancellation |
| RunTheorems.ProbeIsOut | app/firewall/circuit_breaker.py:6-8 | a half-open breaker is never stranded: the request it let through last is still suspended upstream, unless the report it made raised; and it lets nobody else through |
| RunTheorems.BreakerIsHistory | app/firewall/circuit_breaker.py:47-88 | in every run the breaker of a tool is half open exactly if its probe flag is set, its mode and counter follow from that tool's own calls and reports, and the counter stays below the threshold |
| RunTheorems.InFlightIsSuspended | app/firewall/gateway.py:176-202 | calls a breaker's history counts as in flight are the suspended requests plus those whose report raised |
| RunLoads.LoadInRun | app/firewall/circuit_breaker.py:47-88 | if no call of a tool has succeeded, never more than C requests were suspended at it or lost their report, and its breaker tripped first at time t, then the run has let through at most threshold - 1 + C calls of it plus one per cooldown since t |
| RunLoads.LoadBeforeTrip | app/firewall/circuit_breaker.py:75-82 | and as long as the breaker stays closed, at most threshold - 1 + C |
| RunLoads.GrantsAreSpaced | app/firewall/circuit_breaker.py:47-61 | from any point of a run at which the breaker is open, if no call succeeds afterwards, the calls let through are at least a cooldown apart, the first one a cooldown after the trip |
| RunLoads.OutIsInFlight | app/firewall/gateway.py:176-202 | a bound on suspended and lost requests in all worlds so far bounds what the breaker's history counts as in flight at every point |
| Probes.OneProbeIff | app/firewall/circuit_breaker.py:3-4 | for every configuration and time limit T: in all histories in which no call is out longer than T at most one call let through by a breaker that was not closed is out, iff T < cooldown |
| Probes.TwoProbesInFlight | app/firewall/circuit_breaker.py:77-88 | for every configuration and T >= cooldown, a history with two such calls out at once |
| Probes.TimelyIsAlone | app/firewall/circuit_breaker.py:47-88 | if T < cooldown, in every such history an open breaker's calls all precede the trip, and while half open nothing but its probe is out |
| Probes.PlayIsRun | app/firewall/circuit_breaker.py:47-88 | the breaker of a history with identities is that of the same history without |
| Probes.OnlyLateSuccessCloses | app/firewall/circuit_breaker.py:69-73 | an event closes an open breaker iff it is the success of a call let through no later than the trip |
| RunProbes.OneProbeInRun | app/firewall/gateway.py:176-202 | in every run in which no step finds a call of the tool suspended for longer than some T < cooldown, at most one probe of it is suspended, and while its breaker is half open no other call of it is |
| RunProbes.AloneStep | app/firewall/gateway.py:176-202 | every step keeps that |
| RunTheorems.CallsPerWindow | app/firewall/gateway.py:134-142 | any half-open window of the quota's length, anywhere on the time line, holds at most max_requests rate-stage passes of a user over requests, listings and management, and at most that many upstream calls were rate-checked in it |
| RunTheorems.FailClosed | app/firewall/gateway.py:114-220 | with faults anywhere, the attempted audit records of requests are the answers one for one and in order; a request has exactly one answer once finished and none before; its phase and its answer are what its own arrival, fetch and reply actions gave, each segment run on the state of the run at that action; a response is present iff the decision is ALLOW; an ALLOW result holds stage allowed, the user and role its session had on arrival, the risk of the tool, no time to wait, and the very response its own reply action delivered; the entry guards held at the arrival, the call guards at the fetch, and no output rule hits the text of the response, which is within the budget |
| RunTheorems.SessionsGateRequests | app/firewall/gateway.py:127-131 | in every run, a request whose validation does not raise is turned away as unauthenticated iff its session is not live on arrival: never issued, revoked since, or over by its own reading of the wall clock |
| RunTheorems.AllowedSessionsAreLive | app/firewall/gateway.py:127-132 | every allowed request came with a session that was live at its own arrival, and is answered in the name of the user who logged in |
| RunAccess.SignInsAreEarned | app/firewall/authentication.py:58-78 | in every run, every session beyond those of the store came from a login action of that run with that token, for a valid id in the users table at that point, with a key whose hash was the one stored then |
| RunAccess.AccessIsEarned | app/firewall/gateway.py:301-313 | in every run, a call that asks for access is turned away as unauthenticated iff its session is not live; otherwise it gets in iff the user who logged in with it is within the quota and, where a manager is asked for, has a role of that moment that may manage; it is forbidden iff only that fails; who gets in is that user in that role |
| RunTheorems.RunExists | app/firewall/gateway.py:114-202 | every sequence of actions has a run |
| GatewayRuns.StepFits | app/firewall/gateway.py:126-220 | every step of the run machine has one of ten shapes, which say what may change in checks, breakers, pins, accounts, audit attempts, requests and record |
| GatewayRuns.StepIsOperation | app/firewall/gateway.py:126-273 | every step of the run machine does to the core what its action names: the segment of a request, an approval by a role that may manage, an access check, a login, a revocation; a disabled action does nothing |
| GatewayRuns.EntryHoldsIff | app/firewall/gateway.py:127-154 | the guards before the fetch hold iff the session is valid, the rate check is answered yes, the name is valid, and the role's policy lists the tool and its maximal risk is at least that of the tool |
| GatewayRuns.CallHoldsIff | app/firewall/gateway.py:162-179 | the guards before the call hold iff the fetched list has exactly one definition of the name, it has the pinned fingerprint, the arguments pass the scan under the rules for inputs, and the breaker allows |
| RunBreakers.BreakerTracedStep | app/firewall/circuit_breaker.py:47-88 | every step keeps the breaker equal to the fold of its tool's events, and the granted times equal to that history's admissions |
| RunBreakers.BreakerBalancedStep | app/firewall/gateway.py:176-202 | every step keeps grants minus reports equal to suspended requests, and the half-open probe suspended |
| RunQuotas.RateTracedStep | app/firewall/gateway.py:301-307 | every step keeps a user's rate-stage passes equal to the admitted checks of the full history |
| RunQuotas.CallsCoveredStep | app/firewall/gateway.py:134-202 | every step keeps a user's upstream calls and waiting requests of a window covered by passes in that window |
| RunPins.PinTracedStep | app/firewall/gateway.py:233-273 | every step keeps the pin of a name equal to what its last approval wrote, by someone who may manage, for a definition that passed the scan |
| RunPins.BatchApprovals | app/firewall/gateway.py:243-262 | a batch records one approval of a name it takes and none of any other |
| RunPins.VerifiedIsTrusted | app/firewall/integrity.py:75-82 | a definition that verifies is trusted as the last approved one: same fingerprint and standard form, and the same verdict from every scanner iff the texts are the same |
| RunPins.AllVettedStep | app/firewall/gateway.py:162-169 | every step keeps every recorded call vetted |
| RunAnswers.AuditedStep | app/firewall/gateway.py:337-352 | every step keeps the attempted request records equal, in tool, user, role, risk, decision and stage, to the answers |
| RunAnswers.AnsweredOnceStep | app/firewall/gateway.py:114-124 | every step keeps each request answered once if finished and not at all before or if cancelled |
| RunAnswers.SoundStep | app/firewall/gateway.py:126-220 | every step keeps what a request has passed so far true of it: its guards, what is known of the caller, and every field of an allowed result: decision, stage, tool, user, role, risk, no time to wait, and the response that passed the output scan |
| RunRequests.WentStep | app/firewall/gateway.py:126-220 | every step keeps the phase and answer of a request equal to what its own arrival, fetch and reply gave, in that order, on the states of the run |
| RunSessions.SessionsTracedStep | app/storage/database.py:91-110 | every step keeps the sessions table equal to the history of logins and revocations, with no token issued twice and no issue for an unknown user |
| GatewayTheorems.PinsPointwise | app/firewall/gateway.py:243-273 | after a batch, a name it takes holds the pin of its only fetched definition and every other name its old pin |
| GatewayTheorems.ApprovalBatch | app/firewall/gateway.py:233-273 | one outcome a distinct name, in the order of the request, or of the list if nothing was named; a wanted name is approved, updated or unchanged iff the list has exactly one definition of it and that one passes the scan under the rules for descriptions, and then it is pinned with that fingerprint, by the approver, at that time; every other name keeps its old pin |
| GatewayTheorems.TakesIff | app/firewall/gateway.py:243-265 | a batch takes a name iff it is wanted and the list has exactly one definition of it, which passes the scan of descriptions |
| GatewayTheorems.StatusIsTold | app/firewall/gateway.py:264-273 | not_found iff no fetched definition has the name; approved iff the name had no pin and has one now; updated iff it had one and the fingerprint changed; unchanged only if it had that fingerprint |
| GatewayTheorems.ApprovalIsAudited | app/firewall/gateway.py:252-261 | one audit attempt a distinct name, in order, with time, user, session and role of the approver and the risk of a valid name; ALLOW iff the name is taken; the stored rows are the same |
| GatewayTheorems.ResultIs | app/firewall/gateway.py:242-262 | the approver gets one outcome a name in order, or nothing of a batch that raised |
| GatewayTheorems.UnauditedPin | app/firewall/gateway.py:250-261 | if the audit call of an accepted name raises, that name is pinned and verifies, and no new stored row is about it |
| GatewayTheorems.ManagersSeeAll | app/firewall/gateway.py:281-296 | a manager's listing is the whole fetched list, duplicates included, entry by entry and in order |
| GatewayTheorems.RateDenialTellsWhen | app/firewall/gateway.py:135-142 | a rate denial carries r with 0 < r <= window, and the user passes at a later time iff r has elapsed, nobody of that user having passed before |
| GatewayTheorems.BreakerDenialTellsWhen | app/firewall/gateway.py:179-184 | a denial by an open breaker carries exactly the time until it lets a call through and leaves it as it is; by a half-open one, zero |
| GatewayTheorems.ApprovalIsIdempotent | app/firewall/gateway.py:264-273 | repeating a batch on the same list leaves every fingerprint, reports the accepted names unchanged and the others as before |
| GatewayTheorems.ListingIsExact | app/firewall/gateway.py:281-296 | an entry is shown iff some fetched definition has that name, description, schema, risk and integrity, and the role may manage, or it may use the tool at its risk and the definition has the pinned fingerprint |
| GatewayTheorems.ListingIsInOrder | app/firewall/gateway.py:281-296 | the listing is that of the shown definitions, entry by entry and in order |
| GatewayTheorems.ListingAgreesWithCalls | app/firewall/gateway.py:281-296 | for a caller who may not manage and a name listed once, the tool is shown iff the role may use it at its risk and a call would not be stopped for its integrity |
| GatewayTheorems.AuditFailureIsHarmless | app/firewall/gateway.py:337-352 | if the audit store fails, every segment ends exactly as it would have; only the audit table differs |
| Gateway.EntryInOrder | app/firewall/gateway.py:127-154 | the table of entry guards is decided by the first check that fails, in the order of the code |
| Gateway.CallInOrder | app/firewall/gateway.py:157-184 | the table of call guards is decided by the first check that fails, in the order of the code |
| Gateway.ReplyInOrder | app/firewall/gateway.py:187-207 | the table of reply guards is decided by the first check that fails, in the order of the code |
| GatewayAnswers.EntryAnswers | app/firewall/gateway.py:126-155 | the whole result of the first segment, field by field and in the order of the checks: session, quota, name, permission at the risk of the tool; a raise is an internal error; a denial says what is known by then |
| GatewayAnswers.CallAnswers | app/firewall/gateway.py:156-184 | the same for the second segment: fetch, one definition of the name, the pinned fingerprint, arguments that pass the input scan, breaker with its time to wait |
| GatewayAnswers.ReplyAnswers | app/firewall/gateway.py:186-220 | the same for the third: a failed call, a response an output rule hits, or ALLOW with the response as it came |
| GatewayAnswers.EntryLeaves | app/firewall/gateway.py:127-135 | the first segment counts a validated caller once, records its result with time and session, and changes nothing else |
| GatewayAnswers.CallLeaves | app/firewall/gateway.py:177-184 | the second asks the tool's breaker iff everything before it passes, records a denial, and changes nothing else |
| GatewayAnswers.ReplyLeaves | app/firewall/gateway.py:187-202 | the third tells the tool's breaker of a success iff the call returned a response that is no error, else of a failure, records the result, and changes nothing else |
| GatewayAnswers.InputCleanIff | app/firewall/gateway.py:171-174 | the arguments are clean iff no rule for inputs hits a key or string in them and they are within depth and budget |
| GatewayAnswers.OutputCleanIff | app/firewall/gateway.py:204-207 | a response is clean iff no rule for outputs hits its text and it is within the budget |
| Gateway.OnlyMatch | app/firewall/gateway.py:162-163 | a call goes on iff exactly one position of the fetched list holds that name, and then with the definition there |
| Gateway.ValidToolNameIff | app/firewall/gateway.py:44 | 1 to 128 characters of A-Z, a-z, 0-9, `_`, `.` and `-` |
| Gateway.OutcomeIs | app/firewall/gateway.py:264-273 | the outcome of one name: not found iff the list has none of it; accepted iff the list has exactly one and it passes the scan of descriptions, approved iff it had no pin and unchanged iff it had that fingerprint; the fingerprint is told iff accepted |
| Gateway.FirstStop | app/firewall/gateway.py:126-184 | the position of the first guard that does not pass |
| Gateway.MatchesAreNamed | app/firewall/gateway.py:162 | the matches of a name are definitions of that name from the list |
| Gateway.BatchNext | app/firewall/gateway.py:243-262 | a batch with one more name is the batch followed by that name, with outcomes judged by the pins before the batch |
| Gateway.ApprovalReaches | app/firewall/gateway.py:243-262 | a batch that raises has pinned the names before the one it raises at, and that one if it raises later than the pin; attempted records for the names before, and that one if it raises in the audit call; and stored those before |
| Gateway.OtherPinsStay | app/firewall/gateway.py:264-273 | a batch does not touch the pin or the outcome of a name outside it |
| Gateway.Dedup | app/firewall/gateway.py:240 | every name once, in the order of first occurrence |
| FirewallObject.Firewall.constructor | app/firewall/gateway.py:62-90 | a new firewall has no checks, no breakers and no attempts |
| FirewallObject.Firewall.EntrySteps | app/firewall/gateway.py:127-154 | steps 1 to 5 give the verdict of the entry guards, the context known by then, and count the check of every authenticated request |
| FirewallObject.Firewall.Begin | app/firewall/gateway.py:114-154 | the first segment is `Entry`: new state and progress |
| FirewallObject.Firewall.Named | app/firewall/gateway.py:162 | the fetched definitions of a name, in order |
| FirewallObject.Firewall.InspectSteps | app/firewall/gateway.py:157-174 | steps 6 and 7 give the verdict of the guards before the breaker and change nothing |
| FirewallObject.Firewall.CallSteps | app/firewall/gateway.py:157-184 | steps 6 to 8 give the verdict of the call guards and ask the breaker only if the earlier ones pass |
| FirewallObject.Firewall.AskBreaker | app/firewall/gateway.py:178-184 | the breaker of the tool is asked once; a refusal carries its retry_after |
| FirewallObject.Firewall.ToolsFetched | app/firewall/gateway.py:157-190 | the second segment is `AfterTools` |
| FirewallObject.Firewall.ReplySteps | app/firewall/gateway.py:187-207 | every ending of the call is reported to the breaker before anything else |
| FirewallObject.Firewall.ReplyReceived | app/firewall/gateway.py:187-220 | the third segment is `AfterReply`, whose result `GatewayAnswers.ReplyAnswers` spells out |
| FirewallObject.Firewall.AuditResult | app/firewall/gateway.py:337-352 | one attempt; the row is stored unless the store fails |
| FirewallObject.Firewall.Finish | app/firewall/gateway.py:119-124 | every result is audited once and returned as it is |
| FirewallObject.Firewall.Authenticate | app/firewall/gateway.py:301-307 | lets in exactly a valid session within the quota, counts every valid session, and reports a refusal with its retry_after; it never says forbidden |
| FirewallObject.Firewall.RequireManager | app/firewall/gateway.py:309-313 | lets in exactly a valid session within the quota whose role's policy allows management; forbidden iff only that fails |
| FirewallObject.Firewall.ApproveTools | app/firewall/gateway.py:225-262 | a role that may not manage is refused before anything changes; otherwise the batch over the distinct wanted names, which a raise at any name ends where it is |
| FirewallObject.Firewall.ApproveWanted | app/firewall/gateway.py:242-262 | the loop over the wanted names, to its end or to the raise |
| FirewallObject.Firewall.StopAt | app/firewall/gateway.py:250-261 | what a raise at one name leaves behind: before the pin, after it, or in the audit call |
| FirewallObject.Firewall.ApproveAndRecord | app/firewall/gateway.py:243-261 | one name that does not raise: its outcome, its pin and its approval record |
| FirewallObject.Firewall.Tally | app/firewall/gateway.py:236-239 | counts per name and the last definition of each |
| FirewallObject.Firewall.Judge | app/firewall/gateway.py:243-250 | not found, rejected as duplicate, or judged by its definition |
| FirewallObject.Firewall.ApproveOne | app/firewall/gateway.py:264-273 | a definition is pinned iff it passes the scan under the rules for descriptions; approved, unchanged or updated by the pin before |
| FirewallObject.Firewall.ListTools | app/firewall/gateway.py:279-296 | the listing of the fetched definitions for a role |
| LimiterTheorems.GreedyStaysAhead | app/firewall/rate_limiter.py:47-59 | optimality: at least as many arrivals are admitted as by any selection that keeps the quota in every half-open window, and the i-th admission is never later |
| LimiterTheorems.WindowBound | app/firewall/rate_limiter.py:47-59 | no half-open window of the quota's length, ending anywhere, holds more admitted checks of a key than the quota |
| LimiterTheorems.ClosedWindowHoldsMore | app/firewall/rate_limiter.py:54-55 | a closed window can: for every configuration, a burst that fills the quota and a check one window length later are all admitted |
| LimiterTheorems.ClosedWindowOverfull | app/firewall/rate_limiter.py:54-55 | some closed window holds more than the quota iff two admitted checks max_requests positions apart are exactly one window apart |
| LimiterTheorems.KeysAreIsolated | app/firewall/rate_limiter.py:53-59 | checks of other keys never matter |
| LimiterTheorems.RetryAfterIsExact | app/firewall/rate_limiter.py:54-59 | after a refusal with value r, 0 < r <= window; every later check of the key before r has passed is refused, however many, and the first one from then on is admitted |
| LimiterTheorems.AdmittedAtSelects | app/firewall/rate_limiter.py:47-59 | the admitted checks are a selection of the arrivals of the key |
| RateLimiting.SlidingWindowRateLimiter.constructor | app/firewall/rate_limiter.py:32-45 | starts with an empty history |
| RateLimiting.SlidingWindowRateLimiter.Check | app/firewall/rate_limiter.py:47-59 | the answer and retry_after equal those of counting the key's admitted checks in the half-open window over the full history; afterwards every deque is nonempty, sorted and within the quota, and beyond the sweep threshold only active keys are stored |
| RateLimiting.SlidingWindowRateLimiter.SweepIfLarge | app/firewall/rate_limiter.py:51-52 | the deques stay in step with the history, and few keys are stored or none that is stale |
| RateLimiting.SlidingWindowRateLimiter.Evicted | app/firewall/rate_limiter.py:53-55 | the deque of a key without the hits that have left the window still shows every later window as the history does |
| RateLimiting.SlidingWindowRateLimiter.Sweep | app/firewall/rate_limiter.py:61-64 | exactly the keys whose newest hit has expired are forgotten |
| RateLimiting.SweepKeepsTracking | app/firewall/rate_limiter.py:51-64 | a sweep changes nothing a later check can see |
| RateLimiting.StepKeepsConsistency | app/firewall/rate_limiter.py:53-59 | answering from the evicted deque keeps the deques in step with the history |
| RateLimiting.CheckKeeps | app/firewall/rate_limiter.py:51-59 | the answer from the evicted deque is that of the full history, and beyond the threshold only active keys are stored |
| BreakerTheorems.StateIsHistory | app/firewall/circuit_breaker.py:47-88 | half open iff the probe flag is set, so a half-open breaker refuses everyone; mode and counter follow from the history of calls and reports; the counter stays below the threshold |
| BreakerTheorems.LoadAfterTrip | app/firewall/circuit_breaker.py:47-61 | after a trip with no success, admissions are at least a cooldown apart and at most floor((t - t0) / cooldown), whatever late failures arrive |
| BreakerTheorems.TotalLoad | app/firewall/circuit_breaker.py:47-88 | with at most C calls in flight, total admissions are at most threshold - 1 + C plus that |
| BreakerTheorems.RetryAfterIsExact | app/firewall/circuit_breaker.py:51-67 | an open breaker with no reports refuses until exactly retry_after has elapsed and allows from then on |
| BreakerTheorems.LateSuccessCloses | app/firewall/circuit_breaker.py:69-73 | for every configuration a history in which a late success closes an open breaker within its cooldown |
| CircuitBreaking.CircuitBreaker.constructor | app/firewall/circuit_breaker.py:24-40 | starts closed |
| CircuitBreaking.CircuitBreaker.TryAcquire | app/firewall/circuit_breaker.py:47-61 | state and answer of `allow` |
| CircuitBreaking.CircuitBreaker.RecordSuccess | app/firewall/circuit_breaker.py:69-73 | closes from any state and clears counter and flag |
| CircuitBreaking.CircuitBreaker.RecordFailure | app/firewall/circuit_breaker.py:75-82 | trips when half open or at the threshold, else counts |
| CircuitBreaking.CircuitBreaker.TripNow | app/firewall/circuit_breaker.py:84-88 | open since now, counter and flag clear |
| CircuitBreaking.CircuitBreakerRegistry.Get | app/firewall/circuit_breaker.py:105-111 | one breaker a key, created on first use, never shared |
| CircuitBreaking.CircuitBreakerRegistry.Ask | app/firewall/gateway.py:178-184 | asks the key's breaker and leaves every other one as it is |
| CircuitBreaking.CircuitBreakerRegistry.Tell | app/firewall/gateway.py:192-202 | reports to the key's breaker and leaves every other one as it is |
| Scanning.ScanIsCutStream | app/firewall/scanner.py:263-295 | the findings are those of exactly the strings before the unique cut of the document-order stream, then at most one resource finding, which is last; the scanned strings fit the budget |
| Scanning.Verdict | app/firewall/scanner.py:256-295 | blocked iff some key or string leaf at some depth has a finding, or some node lies deeper than max_depth, or the lengths plus one together exceed max_chars |
| Scanning.CleanIffPasses | app/firewall/scanner.py:256-295 | a scan finds nothing iff no rule of the direction hits a text of the value, it is at most max_depth high and its texts weigh at most max_chars |
| Scanning.FindingsAreLocated | app/firewall/scanner.py:256-295 | every finding of a rule names the place of a string of the value that the rule hits; and within depth and budget every hit is found there |
| Scanning.EventsStopDeep | app/firewall/scanner.py:267-270 | if a node is too deep, the walk stops at the first one in document order, having read exactly the texts before it |
| Scanning.MembersInOrder | app/firewall/scanner.py:272-280 | the stream of an object is that of the members before one, its key, its value, and the members after it, for each member |
| Scanning.TextsAreStrings | app/firewall/scanner.py:271-287 | the texts that count are the keys and string leaves that stand somewhere in the value |
| Scanning.HeightIs | app/firewall/scanner.py:267-270 | a value has a node at a depth iff that depth is at most its height |
| Scanning.VerdictIgnoresOrder | app/firewall/scanner.py:256-295 | the verdict does not depend on key order at any depth, nor on the location label |
| Scanning.VerdictIsContent | app/firewall/scanner.py:256-295 | two values get one verdict under all limits and rules iff they hold the same texts, of the same total weight, and are equally deep |
| Scanning.VerdictMonotone | app/firewall/scanner.py:256-295 | raising either limit never turns an unblocked value into a blocked one |
| Scanning.CutIsUnique | app/firewall/scanner.py:289-295 | there is only one place to cut |
| Scanning.Scanner.ScanText | app/firewall/scanner.py:241-253 | one finding a hit of the rules on the text, in order, each with its location |
| Scanning.Scanner.ScanValue | app/firewall/scanner.py:256-261 | the findings of the whole stream under budget, depth and stop flag |
| Scanning.Scanner.Walk | app/firewall/scanner.py:263-287 | the walk advances budget, findings and stop flag as the document-order stream of the value does |
| Scanning.Scanner.WalkMembers | app/firewall/scanner.py:272-280 | the keys and values of an object in order, until the stop flag |
| Scanning.Scanner.WalkItems | app/firewall/scanner.py:281-285 | the items of an array in order, until the stop flag |
| Scanning.Scanner.ScanString | app/firewall/scanner.py:289-295 | one string against the budget |
| Canonical.DumpIsExact | app/firewall/integrity.py:28-36 | for all values: two have one serialisation iff, with the members of every object sorted and then the split pairs of every text joined, they are the same value |
| Canonical.SortedIffEquiv | app/firewall/integrity.py:36 | two dicts sort alike iff they are equal up to key order at every depth |
| Canonical.DumpIsCanonical | app/firewall/integrity.py:28-36 | on dicts without split pairs: one serialisation iff equal up to key order at every depth |
| Canonical.Separated | app/firewall/integrity.py:36 | for all values: printed values end where they end, whatever follows that can follow a value, and equal texts come from values that are the same once split pairs are joined |
| Canonical.EquivDumpsAlike | app/firewall/integrity.py:36 | reordering keys at any depth never changes the serialisation |
| JsonParser.ParseUndoesDump | app/firewall/integrity.py:36 | for all values: parsing the serialisation gives the value with the members of every object sorted and split pairs joined |
| JsonParser.ValueReads | app/firewall/integrity.py:36 | for all values, and whatever follows that can follow a value: the parser reads back what was printed and stops where it ends |
| CanonicalForm.SortedIsInOrder | app/firewall/integrity.py:36 | in what is printed, the keys of every object at every depth stand in the order of their code points |
| CanonicalForm.SortPermutes | app/firewall/integrity.py:36 | sorting keeps every member as often as it is there |
| CanonicalForm.EscapeIs | app/firewall/integrity.py:36 | printable ASCII stands for itself; quotation mark, backslash and five control characters have a short escape; every other unit has four lower-case hexadecimal digits |
| CanonicalForm.PrintIsAscii | app/firewall/integrity.py:36 | the text is printable ASCII |
| CanonicalForm.PrintIsCompact | app/firewall/integrity.py:36 | arrays and objects are their parts with a comma between them, in brackets and braces; a part of an object is the quoted key, a colon and the value; no spaces |
| JsonText.TextsPrintAlike | app/firewall/integrity.py:36 | for all texts: two print alike iff they are the same once split surrogate pairs are joined |
| JsonText.SplitPairsPrintAlike | app/firewall/integrity.py:36 | an astral character and its surrogate pair print alike: concrete family |
| JsonText.UnitsInjective | app/firewall/integrity.py:36 | texts without split pairs are determined by their UTF-16 |
| Integrity.FingerprintIsExact | app/firewall/integrity.py:28-40 | for all definitions: one fingerprint iff they are the same once object keys are sorted and split surrogate pairs joined, in name, description, schema, annotations and extras |
| Integrity.FingerprintIgnoresOnlyOrder | app/firewall/integrity.py:28-40 | without split pairs: one fingerprint iff the definitions differ at most in key order |
| Integrity.VerdictIsExact | app/firewall/scanner.py:256-295 | for all definitions: one verdict under all limits and rules iff the same texts, of the same weight, and equal depth |
| Integrity.ScanCleanIff | app/firewall/gateway.py:265 | the scan at approval finds nothing iff no rule for descriptions hits the name, the description or a key or string of schema, annotations and extras, or a field name, and the definition is within depth and budget |
| Integrity.FingerprintCarriesVerdictIff | app/firewall/integrity.py:75-82 | for all definitions of one fingerprint: one verdict under all limits and rules iff the same texts of the same weight, before split pairs are joined |
| Integrity.FingerprintCarriesVerdict | app/firewall/integrity.py:75-82 | without split pairs, a definition with the fingerprint of a clean one is clean |
| Integrity.SplitPairsCarryNoVerdict | app/firewall/integrity.py:28-40 | without the condition on text, two definitions share a fingerprint and some rules for descriptions hit one and not the other |
| Integrity.ApproveThenVerify | app/firewall/integrity.py:66-82 | for all definitions: after an approval exactly those of the same standard form are accepted under its name, which without split pairs are those that differ from it in key order at most; other names are judged as before |
| Integrity.IntegrityChecker.VerifyTool | app/firewall/integrity.py:75-82 | unapproved, changed or ok |
| Integrity.IntegrityChecker.Approve | app/firewall/integrity.py:66-69 | writes the pin of the definition's name and no other |
| Authentication.ValidIffLive | app/firewall/authentication.py:80-99 | validation succeeds iff a login issued the id, no revocation followed and the time to live has not passed; it reports that user with the role of now, the session reference, and the times of the login |
| Authentication.RefusalIsTold | app/firewall/authentication.py:80-99 | why a session is refused, as an equivalence each: nothing sent; never issued; revoked; issued, not revoked and over |
| Authentication.KeyOpensAccount | app/firewall/authentication.py:47-78 | after a registration, a login of that user with a fresh token succeeds iff the key is the registered one, with the registered role |
| Authentication.LoginOpensSession | app/firewall/authentication.py:68-99 | the token of a login is valid, whatever happens afterwards, exactly until its time is over or it is revoked, for the user who logged in |
| Authentication.ValidUserIdIff | app/firewall/authentication.py:18 | 1 to 64 characters of A-Z, a-z, 0-9, `_`, `.`, `@` and `-` |
| Authentication.DeadStaysDead | app/firewall/authentication.py:80-102 | a session that has stopped being live never becomes live again |
| Authentication.RefusedForever | app/firewall/authentication.py:80-102 | an issued id refused once is refused ever after, whatever logins, revocations and registrations follow |
| Authentication.TableIsHistory | app/storage/database.py:91-110 | the sessions table is the history of logins and revocations |
| Authentication.HoldsAfterLogin | app/firewall/authentication.py:68-71 | a login extends the history by one issue, and no token is ever issued twice |
| Authentication.HoldsAfterRevocation | app/firewall/authentication.py:101-102 | a revocation extends the history by one revocation |
| Authentication.Authenticator.constructor | app/firewall/authentication.py:36-45 | starts over a store whose sessions are the history so far |
| Authentication.Authenticator.ValidateSession | app/firewall/authentication.py:80-99 | the outcome of the checks in order, with the role of now |
| Authentication.Authenticator.RegisterUser | app/firewall/authentication.py:47-56 | refused exactly for a bad id, a short key, an empty role or a taken id |
| Authentication.Authenticator.Login | app/firewall/authentication.py:58-78 | succeeds iff the id is valid and in the users table, the key hashes to the stored hash and the token is not held; stores that session and no other, and returns its user, role, reference and times |
| Authentication.Authenticator.Revoke | app/firewall/authentication.py:101-102 | records the revocation; reports whether the session existed |
| Storage.Database.AddUser | app/storage/database.py:78-85 | an existing user is never overwritten |
| Storage.Database.CreateSession | app/storage/database.py:91-97 | refuses a taken hash and an unknown user |
| Storage.Database.GetSession | app/storage/database.py:99-105 | a row iff the session and its user exist: the session, with its user's current role |
| Storage.Database.RevokeSession | app/storage/database.py:107-110 | marks one session, reports whether it was there |
| Storage.Database.AddAudit | app/storage/database.py:113-132 | appends one row |
| Storage.Database.RecentAudit | app/storage/database.py:134-135 | the newest rows first, all of them for a negative limit |
| Storage.Newest | app/storage/database.py:134-135 | position k from the end, at most the limit |
| Storage.Database.UpsertFingerprint | app/storage/database.py:142-151 | one row a tool, replaced on conflict |
| Risk.ClassifyIsMostDangerous | app/firewall/risk.py:57-73 | an override is the answer; otherwise the risk of every name is the greatest level on whose list one of its words is, CRITICAL also for a launch verb with a code object, and MEDIUM iff no list knows a word |
| Risk.WordsAreMaximal | app/firewall/risk.py:48-54 | the words of every name are its longest stretches of ASCII letters and digits without a change from a lower-case letter or digit to an upper-case letter, in lower case |
| Risk.NameIsMostDangerous | app/firewall/risk.py:48-73 | so for every name made of words, in any of the three conventions |
| Risk.NameIsAtLeast | app/firewall/risk.py:61-73 | a name with a word on the list of a level, in any convention, has at least that level |
| Risk.MoreWordsNeverLowerRisk | app/firewall/risk.py:61-73 | adding words never lowers the risk iff some list already applied |
| Risk.LongerNameNeverLowersRisk | app/firewall/risk.py:48-73 | for every name made of words: no name, in any of the three conventions, that keeps those words and has others anywhere is classified lower, iff some list applied to the shorter name |
| Risk.ConventionsAgree | app/firewall/risk.py:52-54 | snake_case, kebab-case and camelCase of the same lowercase words split into exactly those words |
| Risk.SplitJoined | app/firewall/risk.py:48-54 | splitting undoes joining |
| Basics.DecimalRoundTrip | app/firewall/integrity.py:36 | printed integers read back |

## Left out

- The HTTP routes, the command line and the policy loader: translation only. The policy is a value whose quotas, thresholds and windows satisfy what the constructors demand.
- The MCP adapters and the demo server: foreign calls. Their answers are arbitrary in the model, and `_snake` in the adapter is not modelled.
- The regular expressions, NFKC normalisation and character classes of `scan_text`: the rules are an arbitrary function from text and direction to hits.
- SHA-256 is symbolic and injective; constant-time comparison and the dummy hash for unknown users are equality.
- SQLite text, locks and WAL: maps and a sequence. Threads: each component method is one atomic step, as its lock makes it.
- Floats in timing are reals, and rounding of latencies and of `retry_after` in messages is left out, as are reason strings, latencies, log lines and `sanitize`.
- JSON leaves of other types, which `json.dumps` refuses and the scanner turns to text, and dict keys that are not strings. A float is the text Python prints for it, as its type says.
- Integrity.FingerprintCarriesVerdict: is the special case without split surrogate pairs of `Integrity.FingerprintCarriesVerdictIff`, which is about all definitions.
- `Firewall.login`, its limiter and its audit records: the same limiter with a client key, around `Authenticator.Login`. A login in a run changes the sessions only; `attempts` are the audit records of requests and approvals.
- RunProbes.OneProbeInRun: takes it as given that no step comes later than the time limit after the grant of a call it finds suspended; that `asyncio.wait_for` sees to this, up to scheduling, is not modelled.
- A restart: it clears checks, breakers and pending requests and keeps the tables. A run may start over any store whose pins and sessions came from earlier approvals, logins and revocations.
- Each segment reads each clock once; the code reads it again inside some steps of a segment.
- RunTheorems.ProbeIsOut: a report that raises is recorded as lost, and the request that made it is the one exception; the code has no retry for it.
- RunTheorems.FailClosed: is about requests that return; a request cancelled at either suspension leaves no answer and no audit record, as in the code.
- RunTheorems.CalledToolsAreClean: is about the list the request fetched; what the upstream runs when called is beyond the model (the repository's `README.md:61`).
- GatewayTheorems.ListingAgreesWithCalls: needs a name listed once, because `list_tools` does not reject duplicates and the pipeline does.
- GatewayRuns.StepIsOperation: the approver of an approval in a run is any session value whose role may manage; that `app/main.py:152-153` takes it from `require_manager` in the same HTTP call is not modelled. What `require_manager` answers in a run is `RunAccess.AccessIsEarned`.
- Users are added or given another role or key between steps (`Accounts`) and never removed, as the foreign key of the sessions table demands for those with sessions.
- Authentication.Authenticator.Login: the random token is a parameter; a token handed out before is an error, as the table's key makes it.
- `list_fingerprints`, `get_user`, `ScanResult.summary` and `categories`: plain reads.
