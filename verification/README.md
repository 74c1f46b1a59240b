# Verified model of the VPN operations scripts

A Dafny model of five programs of the repository, with proofs of what they
promise. `dafny verify dfyconfig.toml` checks all of it.

* **The Reality rotation** (`scripts/rotate_reality_dest.py`). Five layers
  (panel, HAProxy ACL, `.env`, running bot container, probe config) are moved
  from old to new values by compare-and-write steps, under a snapshot file that
  outlives any run. The world, the snapshot and a script of *fates* form the
  state: each operation consumes one fate, which says whether it lands, whether
  its answer arrives, what a failure leaves behind and whether somebody edits a
  layer just before it. A process whose script has run out is dead, so a
  statement about all scripts covers a kill between any two operations; a
  keyboard interrupt leaves the same state as a kill. `Planning`, `Reality`,
  `World`, `Verification` and `Rotation` model the program; `Session` is the
  same program as an object whose methods change its fields; `PlannedValues`,
  `Steps`, `Outcomes`, `Staircase`, `Histories`, `Recovery`, `Guarantees`,
  `Undisturbed`, `Continuity`, `Interference`, `Shortfalls` and `Stuck` hold the
  theorems. `Text`, `AclText`, `EnvText` and `HostFiles` model the text
  rewriting of the two host files and the drivers around it; `AclFlags` and
  `EnvGrammar` say which lines they are about, and `PlannedText` joins text and
  plan.
* **The billing guard** (`scripts/hermes_model_guard.py`). `Guard` is the
  policy, `GuardLaws` and `GuardChoices` its theorems, `GuardLoops` the loops of
  `decide`, `GuardRun` the persistent state of `run_once` with its theorems and
  `GuardKeeper` the run as an object.
* **The DPI pipeline** (`scripts/exit_dpi_reporter.py` and `_dpi_exit_rows` of
  `bot/core/web_server.py`). `DpiReader` reads logs by offset, `DpiParse`
  aggregates, `DpiRows` receives, `DpiPlaces` says where the rows lie,
  `DpiPipeline` joins both halves over time; `Dict` is the insertion-ordered
  dictionary they share.
* **The protocol check** (`scripts/protocol_healthcheck.py`): `Health`,
  `HealthLaws`, `HealthFindings`, `HealthCheck`.
* **The traffic bridge** (`scripts/hy2_traffic_collector.py`): `Traffic`.

## Where the code falls short of the law one would expect

Each of these is proved, with the exact condition under which the law holds.

* *Staircase, container clause.* "A container not on the old SNI implies new
  panel and ACL" holds when the old `.env` defined `SNI_VALUE`, and can be
  violated by two rollbacks whenever it did not: `sni_matches` accepts any
  container when nothing is expected, so a second rollback skips the bot
  (`Shortfalls.ContainerClauseNeedsSetEnv`; on a concrete host,
  `Continuity.UnsetHostBreaks`).
* *Make-before-break.* With `--keep-old-sni`, on a host whose SNIs are served,
  what `.env` and the container hand out stays served over every history if and
  only if `SafeHost` holds of old values, plan and compose default
  (`Continuity.MakeBeforeBreakIff`): the old `.env` set `SNI_VALUE`; or the old
  panel and ACL already serve the new SNI and the compose default. (The new SNI
  need not be served where `.env` defines `SNI_VALUE` as empty or an ACL line
  names nobody, and the default only by the planned lists where a rollback
  never recreates the container under the old ones.) Otherwise the container
  ends on a name that panel or ACL turns away (`Continuity.UnsetHostBreaks`).
* *Recoverability.* While the container runs, an undisturbed rollback restores
  the old panel, ACL and `.env` if and only if two things hold
  (`Recovery.Recoverable`). The ACL has not moved or every old ACL line named
  somebody: an empty list is refused when it is written back
  (`Shortfalls.NamelessLineNotRecoverable`). And the old `.env` did not hold an
  empty `SNI_VALUE`, or compose's default is empty too, or the container need
  not be recreated, or panel and ACL have not moved: `docker-compose.yml` puts
  its default where the value is empty, the rollback waits for the empty value,
  stops at the bot step, and so does every later one (`Stuck.EmptyValueSticks`,
  `Stuck.EmptyHostSticks`).
* *A container left down.* Panel calls go through it, so once a recreate has left
  none, every command of every history, rollbacks included, only finds that it
  cannot look, until somebody starts the container
  (`Stuck.DownStopsEverything`, reached in `Stuck.WreckedRecreateSticks`).
* *`transform_names`.* The result is "the names without the removed ones, plus
  the added ones" if and only if no name of the line is removed and added at
  once (`Planning.TransformedNames`).
* *ACL text.* Parsing gives back the names written if and only if the flags of
  every line accept them: a first name that begins with a dash, or a flag still
  waiting for its argument, is read as something else (`AclText.RewriteLaws`;
  the name `-b` in `AclText.DashedNameIsLost`).
* *`.env` text.* Append and remove restore the text if and only if it was empty
  or ended in a newline (`EnvText.AppendAndRemove`).
* *Degraded protocols.* A protocol that only the panel audit calls broken is
  named by no suspect when the audit's wiped fields are another inbound's and
  all layers answered (`HealthLaws.DegradedIsNamed`; reality without its flow
  hides stls in `HealthLaws.WipeHidesAnother`).
* *Guard convergence* needs something free to fall back on, and without it the
  configuration is never touched (`GuardLaws.Converges`,
  `GuardLaws.HopelessForEver`).
* *Spending alarm.* It compares with the last reading, and is told at most once
  in six hours: runs stay silent if and only if every good reading is at most
  $0.001 above the good one before it or comes less than six hours after the
  last alarm (`GuardRun.SilenceIff`). So silence hides at most $0.001 a run and
  what is spent in jumps within those six hours (`GuardRun.SilenceIsCheap`);
  there is no limit to the latter (`GuardRun.SixHoursUnwatched`,
  `GuardRun.ThousandUnseen`), and a drip of exactly $0.001 a run is never
  reported, however long it lasts (`GuardRun.DripIsSilent`).
* *Log rotation.* A truncation is noticed if and only if it leaves less than was
  already read (`DpiReader.TruncationNoticed`).

## Model

| member | source | states |
|---|---|---|
| Planning.TransformedNames | scripts/rotate_reality_dest.py:901-923 | the new line has no repeated name; as a set it is (names minus removed) plus added exactly when no name is removed and added at once |
| Planning.SurvivorsKeepOrder | scripts/rotate_reality_dest.py:901-923 | the names that stay keep their spelling and their order |
| Planning.TransformLine | scripts/rotate_reality_dest.py:901-923 | the loops (pending list consumed from the front, then repetitions dropped) compute that line |
| PlannedValues.NamesTakePlaces | scripts/rotate_reality_dest.py:901-923 | every ACL line, place by place: the added names it lacks take the places of removed ones in order, the rest keep theirs, what is left over comes last, and each name stays once, where it first stands |
| PlannedValues.PlanHolds | scripts/rotate_reality_dest.py:1011-1042 | the planned serverNames in order, every dest key, and the share-link hint, which moves if and only if it pointed at a name of the panel that is dropped |
| Planning.PlannedAclCoversNames | scripts/rotate_reality_dest.py:1011-1042 | every planned ACL line lets through every planned serverName, is never empty, and with --keep-old-sni loses no name |
| Planning.PlanIsFixpoint | scripts/rotate_reality_dest.py:1011-1042 | planning from planned values changes nothing |
| Planning.NothingNeededIffAgrees | scripts/rotate_reality_dest.py:1056-1074 | no step is needed if and only if all layers agree with the target, in either order of steps |
| Planning.StepsGoTogether | scripts/rotate_reality_dest.py:1056-1074 | whenever .env is written the bot is recreated, whenever the bot is recreated a probe that exists is made again, and steps come in the order asked for |
| Reality.PutGet | scripts/rotate_reality_dest.py:341-380 | reading after a write gives what was written if and only if the target names the keys the stream has |
| Reality.PutFrame | scripts/rotate_reality_dest.py:367-380 | keys, short ids and the rest of streamSettings survive a write |
| Reality.PutOverOther | scripts/rotate_reality_dest.py:341-390 | values read from a panel and values planned from them can be written over each other in both directions |
| Reality.PlanInterchangeable | scripts/rotate_reality_dest.py:1011-1042 | a plan is always such a value |
| Verification.PassMeans | scripts/rotate_reality_dest.py:1342-1449 | verify exits 0 if and only if every layer was seen, exit's config.json too, and holds its target, for a strict check with the dests and names of the runtime equal to the panel's, the services answer and the handshake through entry succeeded |
| Verification.FailMeans | scripts/rotate_reality_dest.py:1342-1449 | it exits 1 if and only if something that was seen is off the target, whatever else could not be seen |
| Steps.StepHonest | scripts/rotate_reality_dest.py:1564-1600 | a step that reports success has its layer at the target, over all scripts and whoever edits the world meanwhile |
| Steps.PanelStepIs | scripts/rotate_reality_dest.py:559-623 | the panel is written if and only if it can be reached, still holds what was read and the write lands; a conflict is reported if and only if it holds something else |
| Steps.LazyPanelIs | scripts/rotate_reality_dest.py:1564-1586 | a panel not read before is read first: at the target the step has succeeded without a write, with a stranger's value it is a conflict |
| Steps.AclStepIs | scripts/rotate_reality_dest.py:684-727 | the same for the ACL, which must also be editable, with one non-empty list for each line |
| Steps.EnvStepIs | scripts/rotate_reality_dest.py:729-760 | the same for .env |
| Steps.BotStepIs | scripts/rotate_reality_dest.py:770-800 | the container comes up with what .env says or compose's default, and the step succeeds if and only if that is what is expected and it is healthy |
| Steps.ProbeStepIs | scripts/rotate_reality_dest.py:805-835 | the probe gets the container's own name, and only the expected one |
| Steps.RevertGivesUp | scripts/rotate_reality_dest.py:1672-1741 | auto-revert gives up before its first step if and only if entry does not answer or a layer it is to take back holds a stranger's value; layers whose step met a conflict are not taken back, .env, bot and probe only together |
| Outcomes.VerifyIff | scripts/rotate_reality_dest.py:1342-1449 | on all scripts: verify exits 0 if and only if entry, panel, exit and, where the target sets SNI_VALUE, the handshake answered, and the worlds they found hold the target |
| Outcomes.CheckIff | scripts/rotate_reality_dest.py:1142-1198 | on all scripts: the check is blind if and only if a read did not answer, and has a plan if and only if what it found is fit for a rotation, the candidate's certificate passed and no planned ACL line is empty |
| Outcomes.ApplyNeedsCheck | scripts/rotate_reality_dest.py:1790-1833 | no apply, fresh or resumed, writes a layer or saves a snapshot unless its own reads saw everything, found HAProxy active, files editable, the bot running and healthy and the candidate's certificate good; nothing is done over another unfinished rotation |
| Outcomes.BadCertificateStops | scripts/rotate_reality_dest.py:1187-1188 | a candidate that fails its samples is never rotated to, over all scripts |
| Outcomes.ApplyRefusal | scripts/rotate_reality_dest.py:1806-1815 | a refused apply exits 2 when something was not seen and 1 when what was seen is not fit |
| Outcomes.ApplyExits | scripts/rotate_reality_dest.py:1806-1915 | apply exits 0 if and only if nothing was to be done on a host that passes the check, or all of it was and the verify that follows passes on what it sees; a rotation that ends partial, reverted or failed never exits 0 |
| Outcomes.RollbackExits | scripts/rotate_reality_dest.py:1918-2001 | a rollback is blind without a snapshot or a reading, refuses without a write when a layer holds neither old nor new value, and exits 0 only if a verify against the old values passed and the snapshot says so |
| Outcomes.VerifyCommand | scripts/rotate_reality_dest.py:2004-2023 | verify compares with the old values after a rotation that was taken back and with the new ones otherwise, and writes nothing |
| Staircase.StepStays | scripts/rotate_reality_dest.py:1564-1600 | any quiet step, forward or back, stays on the stairs, touches only its layer and reaches its target when it reports success |
| Staircase.ConvergeStays | scripts/rotate_reality_dest.py:1603-1669 | a whole quiet converge stays on the stairs at every write; with no hard failure every listed step is reached |
| Histories.RevertStays | scripts/rotate_reality_dest.py:1711-1741 | auto-revert, lazily read panel included, stays on the stairs and takes back all it was to take back |
| Histories.ApplyStays | scripts/rotate_reality_dest.py:1790-1915 | any apply, fresh or resumed, dying anywhere, keeps the invariant and its final status tells the truth |
| Recovery.RollbackStays | scripts/rotate_reality_dest.py:1918-2001 | any rollback, dying anywhere, keeps the invariant; exit 0 means panel, ACL and .env are exactly the old ones |
| Recovery.ExecStays | scripts/rotate_reality_dest.py:1766-2023 | every command keeps the invariant |
| Recovery.StaircaseHolds | scripts/rotate_reality_dest.py:165-176 | over every sequence of checks, applies, resumes, verifies and rollbacks, killed anywhere: panel, ACL and .env hold the old or the new value, at the end and around every write, and later layers have moved only if earlier ones have |
| Recovery.Recoverable | scripts/rotate_reality_dest.py:1918-2001 | from every reachable state no layer is in conflict; with the container down a rollback is blind and changes nothing; otherwise an undisturbed one restores the exact old panel, ACL and .env if and only if the ACL has not moved or no old line was empty, and the old .env held no empty SNI_VALUE that compose replaces, or no recreate is due, or panel and ACL have not moved |
| Recovery.BotRefused | scripts/rotate_reality_dest.py:785-800 | where compose's default replaces an expected empty value, no run back gets past the bot step |
| Stuck.NeverRecovers | scripts/rotate_reality_dest.py:1918-2001 | then no sequence of rollbacks, whatever becomes of their operations, moves panel or ACL |
| Stuck.EmptyValueSticks | scripts/rotate_reality_dest.py:1206-1208 | a host with SNI_VALUE empty passes the checks, rotates, and no sequence of rollbacks brings panel or ACL back |
| Stuck.EmptyHostSticks | docker-compose.yml:122 | such a host, concretely |
| Stuck.DownStopsEverything | scripts/rotate_reality_dest.py:1926-1936 | with the container down no command of any history writes a layer or the snapshot |
| Stuck.WreckedRecreateSticks | scripts/rotate_reality_dest.py:770-800 | every host that passes the checks can be brought there by a rollback whose recreate leaves no container: .env is old, panel and ACL stay new |
| Recovery.EmptyLineKeepsAcl | scripts/rotate_reality_dest.py:248-267 | a target with an empty line is never written |
| Continuity.MakeBeforeBreak | scripts/rotate_reality_dest.py:165-170 | with --keep-old-sni on a safe host whose SNIs in .env and container were served, they stay served by serverNames and every ACL line, before and after every write of every history and at its end |
| Continuity.MakeBeforeBreakIff | scripts/rotate_reality_dest.py:1049-1074 | among hosts that pass the checks and whose SNIs are served: no history of a rotation with --keep-old-sni leaves an SNI unserved if and only if the old .env set SNI_VALUE, or panel and ACL serve the new SNI and the compose default wherever a rollback can put them |
| Continuity.UnsetHostBreaks | scripts/rotate_reality_dest.py:1049-1074 | a host in order, with SNI_VALUE unset, that a rotation and two rollbacks leave with an unserved SNI in its container and off the staircase's container clause |
| Undisturbed.ApplyRotates | scripts/rotate_reality_dest.py:1790-1915 | a fresh apply on a host that passes the checks, to which nothing happens, rotates panel, ACL, .env and container and leaves its snapshot on disk |
| Guarantees.FreshApplyIsAtomic | scripts/rotate_reality_dest.py:1835-1869 | a fresh apply, whatever became of an earlier finished rotation, that ends applied or partial has panel, ACL, .env and container new; one that ends reverted has panel, ACL and .env old |
| Guarantees.ApplyAgreesWithVerify | scripts/rotate_reality_dest.py:1647-1669 | after status applied no step is needed and, with services up, verify shows no FAIL for panel, HAProxy, .env, bot or probe |
| Guarantees.NoFailRows | scripts/rotate_reality_dest.py:1342-1440 | agreement of all layers leaves no such FAIL row |
| Guarantees.UnfinishedRotationKept | scripts/rotate_reality_dest.py:1825-1833 | no command, under any interference, replaces the values of an unfinished snapshot |
| Interference.ApplyClobbersNothing | scripts/rotate_reality_dest.py:559-623 | with an adversary between operations, every write of apply and its auto-revert replaces a value this run's check read or a snapshot value, under a saved snapshot |
| Interference.RollbackClobbersNothing | scripts/rotate_reality_dest.py:1934-1946 | so does every write of a rollback, from the snapshot's two values only |
| Shortfalls.LogFollowsSteps | scripts/rotate_reality_dest.py:1647-1669 | a run's log follows its steps and only the last entry or a probe failed |
| Shortfalls.PanelAfterBot | scripts/rotate_reality_dest.py:1711-1741 | in auto-revert the panel is touched only after the bot has been recreated |
| Shortfalls.UnsetEnvStrandsContainer | scripts/rotate_reality_dest.py:1049-1074 | with an old .env without SNI_VALUE already back, a full rollback leaves the container on the new SNI |
| Shortfalls.RefusedRecreateLeavesNewContainer | scripts/rotate_reality_dest.py:1647-1669 | that state is reached by a rollback whose recreate is refused |
| Shortfalls.ContainerClauseNeedsSetEnv | scripts/rotate_reality_dest.py:1918-2001 | the two in sequence: the condition of the container clause is necessary |
| Shortfalls.NamelessLineNotRecoverable | scripts/rotate_reality_dest.py:248-267 | a concrete host that can be rotated and never rolled back |
| Session.Session.DoStep | scripts/rotate_reality_dest.py:1564-1600 | one step in place, compare value and result included |
| Session.Session.Converge | scripts/rotate_reality_dest.py:1603-1669 | the loop over the steps, updating what is known as it goes |
| Session.Session.RevertTo | scripts/rotate_reality_dest.py:1711-1741 | auto-revert in place |
| Session.Session.CmdApply | scripts/rotate_reality_dest.py:1790-1915 | apply in place: snapshot saved first, then steps, status, auto-revert |
| Session.Session.CmdRollback | scripts/rotate_reality_dest.py:1918-2001 | rollback in place |
| Text.JoinSplit | scripts/rotate_reality_dest.py:259-267 | splitting a file into lines and joining them is the identity |
| AclText.ScanWords | scripts/rotate_reality_dest.py:216-239 | the flag scan, index and error as the original keeps them |
| AclText.ScanBehindFlags | scripts/rotate_reality_dest.py:216-239 | the scan stops between flags and names if and only if the flags accept them |
| AclFlags.ScanReads | scripts/rotate_reality_dest.py:216-239 | the flags as a grammar: the scan stops at the names and finds fault if and only if a flag is -f, or -m with another method than str |
| AclFlags.LineReads | scripts/rotate_reality_dest.py:195-245 | every recognised line is flags and names in that grammar, and is flagged exactly then |
| AclFlags.ForbiddenIsRefused | scripts/rotate_reality_dest.py:248-262 | a file with such a line is never rewritten, whatever the names |
| AclFlags.RefusedIff | scripts/rotate_reality_dest.py:248-262 | a rewrite is refused if and only if lists and lines differ in number, a list is empty, or a line is flagged |
| AclFlags.HeadIff | scripts/rotate_reality_dest.py:207-212 | a line is one of the ACL if and only if it is blanks, `acl`, the name, one of the two SNI fetches, and a blank or the end |
| AclText.WrittenLine | scripts/rotate_reality_dest.py:195-267 | names written between the text before and after them are read back, with that text unchanged, if and only if the flags accept them |
| AclText.NamedShell | scripts/rotate_reality_dest.py:204-245 | every recognised line with names is such a line |
| AclText.NamelessShell | scripts/rotate_reality_dest.py:240-245 | so is one without, with a blank in front |
| AclText.RewrittenLine | scripts/rotate_reality_dest.py:248-267 | one line rewritten is recognised again and gives the names, if and only if accepted |
| AclText.RewriteLaws | scripts/rotate_reality_dest.py:248-267 | for a whole file: parse after rewrite gives exactly the names written if and only if all lines accept them; then every byte outside the names is unchanged and a second rewrite equals doing only the second |
| AclText.DashedNameIsLost | scripts/rotate_reality_dest.py:216-267 | a concrete line into which the name -b is written and read back as a flag |
| AclText.FindAclLines | scripts/rotate_reality_dest.py:195-245 | the loop over lines finds every ACL line, in order, with its number |
| AclText.RewriteAclLines | scripts/rotate_reality_dest.py:248-267 | the loop that edits the list of lines computes the rewrite, errors included |
| AclText.RewrittenAt | scripts/rotate_reality_dest.py:258-266 | each ACL line gets the list of its rank, every other line stays |
| EnvText.Reassembled | scripts/rotate_reality_dest.py:270-290 | a definition taken apart loses nothing |
| EnvText.NotBoth | scripts/rotate_reality_dest.py:275-279 | the optional export and the bare key never both match |
| EnvGrammar.DefinesIff | scripts/rotate_reality_dest.py:270-282 | a line is an active definition if and only if it begins with blanks, an optional export, the key and an equals sign |
| EnvGrammar.DefinitionIs | scripts/rotate_reality_dest.py:276-290 | its value is what stands up to the next quote of the kind it begins with, else all up to the blanks before a comment or the end |
| EnvGrammar.TwoDefinitionsRefused | scripts/rotate_reality_dest.py:304-312 | nothing is written if and only if the key is defined on more than one line |
| EnvText.AssignedAgain | scripts/rotate_reality_dest.py:270-325 | a clean value put in is read back with lead, quote and tail unchanged |
| EnvText.SetThenParse | scripts/rotate_reality_dest.py:293-325 | parse after set gives (value, 1) |
| EnvText.SetCurrent | scripts/rotate_reality_dest.py:304-325 | setting the value that is there changes no byte |
| EnvText.SecondSetWins | scripts/rotate_reality_dest.py:304-325 | a clean value set in between leaves no trace |
| EnvText.SetAndBack | scripts/rotate_reality_dest.py:304-325 | set new, then set old, restores the text byte for byte |
| EnvText.AppendAndRemove | scripts/rotate_reality_dest.py:313-321 | append then remove restores the text if and only if it was empty or newline-terminated |
| EnvText.RemoveThenParse | scripts/rotate_reality_dest.py:319-321 | removing the one definition leaves none and every other line |
| EnvText.SetTouchesOnlyTheValue | scripts/rotate_reality_dest.py:322-325 | only the bytes of the value change |
| EnvText.ParseEnvValue | scripts/rotate_reality_dest.py:293-301 | the loop gives the last value and the count |
| EnvText.RewriteEnvText | scripts/rotate_reality_dest.py:304-325 | the loop and the list edit compute the rewrite, the error for a double definition included |
| HostFiles.RewriteReads | scripts/rotate_reality_dest.py:684-727 | a readable target is what the file holds after the write |
| PlannedText.PlannedPlain | scripts/rotate_reality_dest.py:1011-1042 | a plan made of plain names (no white space, '#' or leading dash) holds plain names only |
| PlannedText.StepOnText | scripts/rotate_reality_dest.py:216-267 | on the text of such a host the planned ACL is written and read back, and the old one after it, with every byte outside the names unchanged both times |
| HostFiles.HaproxyFile.Write | scripts/rotate_reality_dest.py:684-727 | conflict if and only if the names differ; either the new text is in place or the old one is, after a failed check or reload too |
| HostFiles.EnvFile.Write | scripts/rotate_reality_dest.py:729-760 | conflict if and only if the value differs; ok if and only if the check after the write reads the value |
| HostFiles.WriteReads | scripts/rotate_reality_dest.py:729-760 | for host names and removal it always does |
| Guard.FirstCandidate | scripts/hermes_model_guard.py:754-769 | the result is listed, free and capable, and none means nobody on the list is |
| GuardLaws.AdditionsFit | scripts/hermes_model_guard.py:629-643 | what tops up a chain is curated, free, new and not the primary; it fills the chain or exhausts the list |
| GuardLaws.ChainMended | scripts/hermes_model_guard.py:610-643 | the new chain is survivors and curated free models |
| GuardLaws.TargetsAreFree | scripts/hermes_model_guard.py:645-657 | side tasks are pinned to free models only; there is no target only when nothing in the chain is free |
| GuardLaws.AuxMended | scripts/hermes_model_guard.py:659-695 | side tasks keep what is alive and get free targets; no action if and only if nothing was dead |
| GuardLaws.RepairIsSound | scripts/hermes_model_guard.py:558-712 | no priced role of a written configuration is dead; what was added is free and curated; a replaced primary is in no role |
| GuardLaws.RepairKeepsTheLiving | scripts/hermes_model_guard.py:610-695 | only the dead are removed: chain order, malformed entries, unpriced tasks and living links stay |
| GuardLaws.RepairIsStable | scripts/hermes_model_guard.py:470-742 | deciding again on a repaired configuration writes nothing |
| GuardLaws.NothingDeadNothingDone | scripts/hermes_model_guard.py:697-698 | nothing dead, no action |
| GuardLaws.DeadIsActedOn | scripts/hermes_model_guard.py:522-529 | no write means nothing dead, once the primary's delisting is not new |
| GuardLaws.CutIsFilled | scripts/hermes_model_guard.py:626-643 | a cut chain has two free models again, or no candidate is left |
| GuardLaws.CriticalIffPaid | scripts/hermes_model_guard.py:713-742 | a rewrite is reported as critical if and only if some role billed a paid model |
| GuardLaws.MissesAreAnnounced | scripts/hermes_model_guard.py:530-605 | each first miss is announced once for the role it has and nothing else is; no_free_model if and only if nothing free is to be had |
| GuardLaws.Converges | scripts/hermes_model_guard.py:286-293 | with something free to be had, one run that sees the catalogue and a later one that can write leave every priced role free, and no later run acts |
| GuardLaws.HopelessForEver | scripts/hermes_model_guard.py:558-584 | without it the configuration is never touched and never free |
| GuardChoices.FreeCostsNothing | scripts/hermes_model_guard.py:296-322 | free is what is listed and costs nothing for any number of tokens and requests; dead is what is listed and not free, or missing for the second time |
| GuardChoices.WatchedIff | scripts/hermes_model_guard.py:325-397 | the models watched are exactly those that the primary, a fallback, a side task or a task's own chain can bill through OpenRouter |
| GuardChoices.TasksArePinned | scripts/hermes_model_guard.py:645-690 | in a written configuration every dead vision or video task has the first free model with images of primary and chain, else of the curated list, and every other dead task the first free model; all others keep theirs |
| GuardChoices.PrimarySucceeds | scripts/hermes_model_guard.py:555-608 | a dead primary gives way to the first free fallback, with that one's own endpoint and key, else to the first curated model that is free and takes tools |
| GuardChoices.ChainIsRefilled | scripts/hermes_model_guard.py:610-643 | the written chain is what is left without the dead, in order, and behind it, only if something was taken out, curated models one by one, each the first that fits, while fewer than two are free |
| GuardChoices.ActionsTell | scripts/hermes_model_guard.py:586-712 | the actions of a plan that writes say exactly what was done: promotion and old primary, fallbacks taken out and added in order, tasks repinned and links cut, backup and restart |
| GuardChoices.WrittenIff | scripts/hermes_model_guard.py:558-698 | a configuration is written if and only if the primary can be replaced and something is dead: primary, fallback, or side task while primary or chain have a free model |
| GuardChoices.AuxToldOnce | scripts/hermes_model_guard.py:409-416 | a missing model of side tasks is announced once, however many tasks use it |
| GuardLoops.CutChain | scripts/hermes_model_guard.py:610-624 | the loop that keeps or drops fallbacks |
| GuardLoops.TopUp | scripts/hermes_model_guard.py:626-643 | the while loop that adds candidates |
| GuardLoops.RepinTasks | scripts/hermes_model_guard.py:659-690 | the loop over side tasks, each edited in its place |
| GuardLoops.DecidePricing | scripts/hermes_model_guard.py:522-742 | decide with a catalogue at hand, statement by statement |
| GuardRun.NothingIsLost | scripts/hermes_model_guard.py:1103-1107 | every message let through is sent, waiting or evicted, each exactly once; the evicted are older than all that wait, at most 20 wait |
| GuardRun.SentOnce | scripts/hermes_model_guard.py:1173-1199 | no message is sent twice, or sent and kept |
| GuardRun.MailIs | scripts/hermes_model_guard.py:1173-1196 | waiting messages are tried before new ones; exactly what was delivered is sent, the rest waits in the same order, and only a full queue loses its oldest |
| GuardRun.RunAnswers | scripts/hermes_model_guard.py:1118-1214 | a run answers 1 if and only if it planned something critical or an owed restart failed, else 2 if and only if it was blind; it reports blindness from the third blind run on, and an owed restart done or failed |
| GuardRun.RestartWhen | scripts/hermes_model_guard.py:1077-1171 | a restart is due after a rewrite that reached the disk or while one is owed, put off at most three times while requests are in flight, and only then gives the process what is on disk |
| GuardRun.RunDedupes | scripts/hermes_model_guard.py:784-801 | a key passes if and only if it was not stamped in the last six hours, and is stamped when it does |
| GuardRun.NotTwiceInSixHours | scripts/hermes_model_guard.py:784-801 | two runs that let the same key through are six hours apart, despite pruning |
| GuardRun.DebtIsPaid | scripts/hermes_model_guard.py:1077-1100 | an owed restart is attempted after at most three deferrals |
| GuardRun.StaysInStep | scripts/hermes_model_guard.py:1147-1171 | over any sequence of runs the process runs what is on disk, or a restart is owed, or the last attempt failed and nothing was written since |
| GuardRun.BaselinesFollow | scripts/hermes_model_guard.py:1124-1140 | the usage compared with is the last one read; the blind counter counts the failed runs since the last good one |
| GuardRun.ToldIff | scripts/hermes_model_guard.py:784-801 | a run lets the spending alarm through if and only if the reading is more than $0.001 above the last one and no alarm was told in the last six hours |
| GuardRun.SilenceIff | scripts/hermes_model_guard.py:494-519 | over any runs the alarm is not told if and only if every good reading is at most $0.001 above the good one before it, or comes less than six hours after the last told alarm, despite pruning |
| GuardRun.SilenceIsCheap | scripts/hermes_model_guard.py:494-519 | over silent runs at most $0.001 a run was spent, blind runs included, plus the jumps within six hours of the last told alarm; none of those once the six hours are over |
| GuardRun.SixHoursUnwatched | scripts/hermes_model_guard.py:784-801 | less than six hours after a told alarm nothing is told, whatever is spent |
| GuardRun.ThousandUnseen | scripts/hermes_model_guard.py:784-801 | a thousand dollars half an hour after an alarm: planned, not told, and the baseline moves on |
| GuardRun.DripIsSilent | scripts/hermes_model_guard.py:494-519 | usage growing by exactly $0.001 a run is told to nobody over any number of runs and adds up to $0.001 times that number |
| GuardRun.KeysStayTogether | scripts/hermes_model_guard.py:438-467 | over any runs and catalogues, every primary and fallback, on disk and running, is one the operator wrote with its own endpoint and key, or a curated one without a key |
| GuardKeeper.FilterNotifications | scripts/hermes_model_guard.py:784-801 | the loop over notifications |
| GuardKeeper.Keeper.RestartIfIdle | scripts/hermes_model_guard.py:1077-1100 | restart or defer, in place |
| GuardKeeper.Keeper.DeliverPending | scripts/hermes_model_guard.py:1173-1182 | the loop over waiting messages |
| GuardKeeper.Keeper.DeliverNews | scripts/hermes_model_guard.py:1184-1196 | the loop over new messages and the bounded queue |
| GuardKeeper.Keeper.Once | scripts/hermes_model_guard.py:1110-1214 | one run changes the state as specified |
| GuardKeeper.RunsConverge | scripts/hermes_model_guard.py:1147-1209 | convergence for whole runs threading model_states through the saved state |
| DpiParse.AggregateCounts | scripts/exit_dpi_reporter.py:130-161 | no counted line is lost or doubled, whatever set of keys is asked for; no bucket lists more than it holds |
| DpiParse.AggregateByIp | scripts/exit_dpi_reporter.py:145-150 | per key and address as well |
| DpiParse.ReportCounts | scripts/exit_dpi_reporter.py:130-241 | the reports count every line once and their top twenty never exceed the bucket |
| DpiParse.ReportHolds | scripts/exit_dpi_reporter.py:130-241 | each inbound used, and each kind and reason of rejects, has one entry, with its lines, its users and its twenty busiest addresses, each with the lines from it |
| DpiParse.PresenceIsLastStreak | scripts/exit_dpi_reporter.py:164-198 | a user is on the inbound of the last line, with the connections since the last move |
| DpiParse.ParseAccessLines | scripts/exit_dpi_reporter.py:130-161 | the loop of parse_access |
| DpiParse.ParseRejectLines | scripts/exit_dpi_reporter.py:201-241 | the loop of parse_rejects |
| DpiParse.ParsePresence | scripts/exit_dpi_reporter.py:164-198 | the loop of parse_presence |
| Dict.TopPart | scripts/exit_dpi_reporter.py:155-160 | what is kept of a counter is its largest part and never more than the whole |
| Dict.TopOrder | scripts/exit_dpi_reporter.py:155-160 | it is in falling order, of equals the one seen first comes first, and one cut off with the value of a listed one was seen later |
| DpiRows.AddEntryWeighs | bot/core/web_server.py:931-950 | an entry adds the larger of its count and its addresses, to its protocol only |
| DpiRows.RowsConserve | bot/core/web_server.py:928-973 | connections, rejects and every reason are conserved per protocol, whatever is merged |
| DpiRows.EndToEnd | bot/core/web_server.py:891-987 | rows add up to the log lines for every set of protocols and every reason, despite truncation, renaming and merging |
| DpiRows.NoNodeIsListed | bot/core/web_server.py:938-941 | no row lists an address of our own nodes |
| DpiPlaces.RowsByPlace | bot/core/web_server.py:904-950 | for every place and protocol there is at most one row, and its connections, rejects and rejects for each reason are those of the addresses located there by nodes and geo database, for the row without a place also what entries claim beyond their addresses |
| DpiPlaces.RowsListAddresses | bot/core/web_server.py:938-987 | the addresses a row lists are the ten that brought in most, each with what it did |
| DpiPlaces.LinesByPlace | bot/core/web_server.py:891-987 | while at most twenty addresses use an inbound or meet with one reason, every row holds exactly the log lines of real users of its protocol from its place |
| DpiRows.ExitRows | bot/core/web_server.py:928-987 | the nested loops with their running counters |
| DpiReader.ReadNew | scripts/exit_dpi_reporter.py:96-127 | a read that follows on moves the offset by exactly what it returns |
| DpiReader.ReadIs | scripts/exit_dpi_reporter.py:96-127 | what a read gives in every case: a missing file, the first read, a backlog over the cap, a file that has become shorter, and otherwise all whole lines and no part of one |
| DpiReader.ConsumedExactlyOnce | scripts/exit_dpi_reporter.py:260-295 | over any interleaving of writes, rotations and ticks, what was consumed is exactly the bytes from the base to the stored offset, in whole lines |
| DpiReader.NothingLeftBehind | scripts/exit_dpi_reporter.py:119-127 | after a committed tick no whole line is unread |
| DpiReader.Reporter.RunOnce | scripts/exit_dpi_reporter.py:260-295 | the offsets move only for a silent or accepted report |
| DpiPipeline.StoredIsConsumed | scripts/exit_dpi_reporter.py:260-295 | the rows of all accepted reports weigh what the consumed lines hold |
| DpiPipeline.LogToTable | bot/core/web_server.py:891-987 | with growing logs below the cap, the table holds each line between baseline and offset exactly once, however often reports failed |
| DpiPipeline.AllArrives | scripts/exit_dpi_reporter.py:260-295 | in that setting, after a report that was accepted the table holds every whole line written since the baseline, each once |
| DpiPipeline.TickIff | scripts/exit_dpi_reporter.py:273-295 | a tick whose lines tell of a user or a reject is posted, and moves both offsets if and only if it is accepted; one whose lines tell nothing moves them without a report |
| HealthLaws.PassMeans | scripts/protocol_healthcheck.py:657-1037 | exit 0 if and only if layer A is fresh, every probed protocol has fresh rows at half the normal rate or better and no dark newest run, no inbound is broken by the audit, and hy2t is verified or not found broken |
| HealthLaws.LatestRunIsRecent | scripts/protocol_healthcheck.py:525-539 | of rows newest first, the latest run is all rows of the last five minutes |
| HealthLaws.LayerCIsAFloor | scripts/protocol_healthcheck.py:771-820 | layers C and B can only worsen hy2t, and their failures always show |
| HealthLaws.RankedList | scripts/protocol_healthcheck.py:978-991 | suspects are distinct, numbered 1 to N, in order of rank, none lost |
| HealthLaws.DownIsNamed | scripts/protocol_healthcheck.py:838-976 | every protocol that is DOWN has its own suspect or a common one |
| HealthLaws.DegradedIsNamed | scripts/protocol_healthcheck.py:944-960 | so has every DEGRADED one, if and only if not the one audit case |
| HealthLaws.WipeHidesAnother | scripts/protocol_healthcheck.py:944-960 | a concrete audit that leaves the degraded stls without a suspect |
| HealthFindings.ProbedState | scripts/protocol_healthcheck.py:542-595 | reality, hy2, ws and stls: UNKNOWN, DOWN and DEGRADED each if and only if the rows and the audit say so |
| HealthFindings.TurboState | scripts/protocol_healthcheck.py:771-820 | the same for hy2t, with exit and entry as a floor |
| HealthFindings.DeadRowsFail | scripts/protocol_healthcheck.py:565-571 | one protocol with fresh rows that are all dead is DOWN and makes the exit code 1 |
| HealthFindings.ExitCodeIff | scripts/protocol_healthcheck.py:1024-1037 | 1 if and only if some protocol is DOWN or DEGRADED, 0 if and only if all are OK, and 2 otherwise |
| HealthFindings.SuspectsIff | scripts/protocol_healthcheck.py:838-991 | the list of suspects, exactly: each cause with evidence is on it once, nothing else, by urgency, numbered from 1 |
| HealthCheck.JudgeRows | scripts/protocol_healthcheck.py:542-595 | the verdict of one protocol's rows, counters and loops |
| HealthCheck.Assessment.EnterTurbo | scripts/protocol_healthcheck.py:771-820 | hy2t from layer C, or floored by it |
| HealthCheck.Assessment.Rank | scripts/protocol_healthcheck.py:978-991 | sort, thin and renumber in place |
| HealthCheck.Assessment.Run | scripts/protocol_healthcheck.py:657-1021 | the whole assessment, dictionary and list updated in place |
| Traffic.BytesAreConserved | scripts/hy2_traffic_collector.py:159-174 | per user and direction, bytes fetched are bytes added, pending, or without a row when applied |
| Traffic.TurnsMeter | scripts/hy2_traffic_collector.py:81-116 | over any turns and panel writes, a user's counters grow by exactly what was applied, uploads to up and downloads to down, on top of what the panel itself changed |
| Traffic.EveryByteIsCounted | scripts/hy2_traffic_collector.py:154-182 | what hysteria handed over for a user is in the user's counters, panel changes apart, or waits, or met no row |
| Traffic.TurnStores | scripts/hy2_traffic_collector.py:81-116 | a turn that commits leaves nothing waiting: each row gets all that waited for its user and is stamped if and only if that was anything; a failed one touches no row |
| Traffic.KickedWhen | scripts/hy2_traffic_collector.py:119-151 | kicked if and only if online and without a row, or with one that is disabled, at its limit or past its date, where zero or none is no limit; blind, nobody |
| Traffic.QuotaBites | scripts/hy2_traffic_collector.py:165-180 | the turn that uses a quota up kicks the user |
| Traffic.Collector.ApplyDeltas | scripts/hy2_traffic_collector.py:81-116 | the transaction row by row, undone as a whole |
| Traffic.Collector.FindKickable | scripts/hy2_traffic_collector.py:119-151 | the two loops |
| Traffic.Collector.Poll | scripts/hy2_traffic_collector.py:154-182 | one turn of the loop |

## Left out

- ssh, docker, systemctl, openssl, HTTP, Telegram and SQLite: their outcomes are parameters (fates, ticks, events).
- `--force-snapshot`, `--dry-run`, a snapshot file that cannot be parsed, run logs, backups and timestamps in the snapshot.
- Message texts, rendering, argument parsing beyond the checks on SNI and dest, certificate parsing: the candidate's verdict is one boolean.
- Verification: `--verify --sni`, which only asks every layer to carry the name; the verify modelled compares with a snapshot, as apply and rollback do.
- Session: the outcome oracle, the fake world and the snapshot store are one object; the original keeps three.
- World: what build_plan checks and no step changes (inbound type, flagged lines, writable files) is one flag.
- World: compose is taken to read SNI_VALUE out of .env as the script does; its own quoting and `$` rules are not part of the model.
- AclText, EnvText: white space is ASCII white space, NEL and NBSP; other Unicode spaces and name folding beyond A-Z are not part of the model.
- EnvText.SetThenParse: asks for a value without white space and quotes, which is what host names are; other values can be read back differently.
- Guard: model ids and providers are taken as already trimmed and lower-cased; the usage notice is a key without its text; a list of fallbacks that is not a list ends the original with exit code 2 before anything is written.
- Guard.Decide: usage is a real number; rounding of the provider's figure is not modelled.
- GuardRun: unreadable timestamps in state.json, a state file that cannot be read, and a run killed between sending and saving.
- GuardRun.RunOnce: the digest in a rewrite notification's key is the multiset of its actions.
- DpiParse: the patterns that cut a line into fields are a parameter; reasons arrive normalised.
- DpiReader: lines end at newlines only; the reporter also splits at other Unicode line breaks inside a line.
- DpiReader.Reporter: a report whose answer was lost after it was stored is sent again by the original; here a report is stored if and only if it is accepted.
- Health: evidence texts, the verdict line, down_for and rates; iptables and audit lines arrive parsed.
- Traffic.BytesAreConserved: bytes hysteria cleared in an answer that never arrived are not counted as fetched, because the collector cannot see them.
- Plain SQL wrappers, the bot's handlers and dashboards, key audits and settings signing.
