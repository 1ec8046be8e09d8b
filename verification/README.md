# wolphin in Dafny

wolphin manages a "project": a group of EC2 instances that share a tag.
The instances are numbered through their `Name` tag, `wolphin.<project>.<n>`.
Its operations are:

- create the project up to the configured instance counts;
- start, stop, reboot and terminate the project's instances;
- revert instances, which replaces them with fresh ones that keep their numbers;
- report status.

Two lineages of the code exist side by side, and this model covers both:

- `wolphin/project.py` is the newer one. It chooses instances through a `Selector`.
- `wolphin/wolphin/project.py` is the older one. It chooses instances by name suffix and retires an instance by renaming it to `<n>_terminated`.

The configuration (`config.py`) and the selectors (`selector.py`) are byte-identical in the two trees.
The rows below cite `wolphin/config.py` and `wolphin/selector.py`. Everything said of them holds for `wolphin/wolphin/config.py` and `wolphin/wolphin/selector.py` too.

The cloud provider is the in-memory EC2 of `wolphin/wolphin/tests/mock_boto.py`:

- instances with a state code, tags and an address;
- an instance limit;
- natural or scripted state transitions on `update()`.

Every project operation is a pure function from one provider state (`MockEc2.Cloud`) to the next.
Raised exceptions become `Failure` values (`Wrappers.Error`).
Sleeps are counted rather than performed.
The SSH probe is a parameter of the functions that wait for SSH.

Modules, one per file:

| file | module | what it holds |
|---|---|---|
| wrappers.dfy | `Wrappers` | `Option`, `Result`, `Outcome`, and the exceptions as values |
| seqs.dfy | `Seqs` | distinctness and subsequences |
| text.dfy | `Text` | Python 2's `strip`, `split`, `str.format` of an int, and `int()` of a text |
| states.dfy | `States` | the state-name/state-code table |
| identity.dfy | `Identity` | name tags, number decoding for both lineages, and the largest number in use |
| mock_ec2.dfy | `MockEc2` | the mock provider |
| polling.dfy | `Polling` | the retry-with-sleep loop of both lineages |
| waiting.dfy | `Waiting` | the state-transition wait and the SSH gate |
| selector.dfy | `Selector` | the default and number-based selectors |
| reconcile.dfy | `Reconcile` | the arithmetic of how many instances to trim or reserve |
| session.dfy | `Session` | provider calls both lineages share: listing, tagging, reserving, numbering |
| project_top.dfy | `TopProject` | `wolphin/project.py` |
| project_nested.dfy | `NestedProject` | `wolphin/wolphin/project.py` |
| config.dfy | `Config` | `Configuration` |

Where the written description of wolphin and its code differ, the model follows the code:

- The top-level `terminate` does not rename the instances it terminates. Only the nested lineage does.
- The top-level wait sleeps after its last attempt as well.

## Model

| member | source | states |
|---|---|---|
| States.NameCodeRoundTrip | wolphin/wolphin/tests/mock_boto.py:8-15 | every known state code maps to its name and back to the same code |
| Text.Split | wolphin/project.py:298-301 | `split(sep)`: no part contains the separator, and joining the parts with it gives back the text |
| Text.SplitsIffSeparator | wolphin/wolphin/project.py:285-288 | a text splits into more than one part exactly when it contains the separator |
| Text.SplitThenLast | wolphin/wolphin/project.py:285-288 | splitting `a + sep + b`, with no separator in `b`, gives the parts of `a` followed by `b`, so `split(sep)[-1]` is `b` |
| Text.ParseInt | wolphin/project.py:298-301 | `int()` of a text: success means a digit is present; failure is `ValueError` carrying the text |
| Text.IntRoundTrip | wolphin/project.py:298-301 | `int()` of `str(n)` is `n`, negative numbers included |
| Text.ParseIntSpacedSign | wolphin/project.py:298-301 | `int("- n")` is `-n`: white space between the sign and the digits is skipped |
| Text.ParseIntRejects | wolphin/project.py:298-301 | a text holding any character other than a digit, white space or a sign fails |
| Text.IntToString | wolphin/wolphin/project.py:353-362 | `"{}".format(n)`: non-empty, digits only apart from a leading minus sign |
| Text.IntToStringPlain | wolphin/wolphin/project.py:290-294 | a number's text holds no `.`, no `_`, no `t` and no surrounding white space, so the name-tag splits leave it whole |
| Identity.LiveNameRoundTrip | wolphin/project.py:298-301 | both lineages decode the name tag `wolphin.<project>.<n>` to `n` |
| Identity.RetiredNameRoundTripNested | wolphin/wolphin/project.py:290-294 | the nested lineage decodes a retired name `wolphin.<project>.<n>_terminated` to `n` |
| Identity.RetiredNameRejectedTopLevel | wolphin/project.py:298-301 | the top-level lineage fails to decode a retired name |
| Identity.MissingNameRejected | wolphin/project.py:298-301 | an instance without a `Name` tag decodes `str(None)` and fails, in both lineages |
| Identity.NameTagInjective | wolphin/project.py:351-360 | different suffixes give different name tags |
| Identity.LiveNameInjective | wolphin/project.py:351-360 | different numbers give different live names |
| Identity.LiveNameNotRetired | wolphin/wolphin/project.py:241-245 | a live name is never a retired name |
| Identity.RetiredNameMarked | wolphin/wolphin/project.py:241-245 | a retired name's suffix contains `terminated` and still decodes to its number |
| Identity.MaxAllocated | wolphin/project.py:121-125 | the largest number in use: fails iff some name fails to decode; otherwise at least 0, at least every number, and attained when positive |
| Identity.AllocationFresh | wolphin/project.py:101-119 | numbers handed out after the maximum rise strictly, exceed every number in use, and are at least 1 |
| MockEc2.ActionTable | wolphin/wolphin/tests/mock_boto.py:148-164 | start and reboot move a non-running live instance to pending, stop moves it to stopping, terminate leaves it unhealthy, a terminated one is untouched, and tags and address are kept |
| MockEc2.ActionIdempotent | wolphin/wolphin/tests/mock_boto.py:148-164 | repeating an action changes nothing more |
| MockEc2.NaturalUpdateSettles | wolphin/wolphin/tests/mock_boto.py:177-185 | a natural `update()` reaches a stable state in one step and keeps tags and health |
| MockEc2.ScriptedUpdateCycles | wolphin/wolphin/tests/mock_boto.py:169-176 | the n-th scripted `update()` takes the script's entry at the n-th cyclic position and wraps at the script's length |
| MockEc2.ApplyEffect | wolphin/wolphin/tests/mock_boto.py:148-164 | applying an action to a list of ids changes exactly the listed instances, each as the action says |
| MockEc2.RefreshOnce | wolphin/project.py:303-313 | refreshing a list of distinct ids updates each listed instance once and no other |
| MockEc2.ApplyTerminate | wolphin/wolphin/tests/mock_boto.py:158-161 | every terminated instance is unhealthy afterwards |
| MockEc2.NonTerminated | wolphin/wolphin/tests/mock_boto.py:38-43 | the count of live instances never exceeds the number of instances |
| MockEc2.RunInstances | wolphin/wolphin/tests/mock_boto.py:45-86 | `InvalidParameters` iff not `1 <= min <= max`; `LimitExceeded` iff live plus `min` exceeds the limit; otherwise `min(max, limit - live)` new pending instances appended with fresh ids, the old ones unchanged |
| MockEc2.CreateTags | wolphin/wolphin/tests/mock_boto.py:88-90 | the given tags are set, the instance's other tags kept, and every other instance untouched |
| MockEc2.FilterTag | wolphin/wolphin/tests/mock_boto.py:99 | the key of a filter is the part after `:`; a key without `:` fails |
| MockEc2.FilterTagOfPrefixed | wolphin/wolphin/tests/mock_boto.py:99 | `tag:<name>` selects the tag `<name>` |
| MockEc2.GetAllInstances | wolphin/wolphin/tests/mock_boto.py:92-105 | lists exactly the instances whose tags match some filter, each once |
| MockEc2.Settles | wolphin/wolphin/tests/mock_boto.py:177-185 | a refresh, an action that points the selection at a goal, and two more refreshes leave every selected natural instance that was pending, running, stopping or stopped at the goal |
| MockEc2.SettlesTwice | wolphin/wolphin/tests/mock_boto.py:177-185 | a pass that leaves the selection stopped, then one that leaves it running, then a refresh: every selected instance that was pending, running, stopping or stopped ends running |
| Polling.RunSpec | wolphin/wolphin/project.py:375-400 | the retry loop stops at the first round that clears or after the budget; it clears iff some round within the budget clears; the world is the one after the rounds taken; sleeps follow the lineage's rule |
| Polling.LineagesAgree | wolphin/project.py:370-377 | the two loops reach the same world, round count and outcome; the top-level one sleeps once more after a last round that fails |
| Polling.TopSleepsAfterLast | wolphin/project.py:370-377 | a top-level wait that times out sleeps once per attempt |
| Polling.NestedSleepsBetween | wolphin/wolphin/project.py:397-400 | the nested wait sleeps once fewer than it attempts |
| Polling.FirstClearUnique | wolphin/wolphin/project.py:375-400 | the round where the loop stops is determined by the rounds alone |
| Waiting.TransitionRound | wolphin/project.py:395-412 | one round refreshes every waited-on instance |
| Waiting.TransitionRoundClear | wolphin/project.py:395-412 | a round clears iff no waited-on instance is still in the old state or short of the new one |
| Waiting.WaitTransition | wolphin/project.py:362-378 | an empty list returns at once with no sleep; the wait keeps every tag and every instance's health |
| Waiting.WaitTransitionSpec | wolphin/wolphin/project.py:364-402 | the wait clears iff some round within the budget clears; otherwise it uses the whole budget; sleeps follow the lineage's rule |
| Waiting.WaitNeverClears | wolphin/project.py:395-412 | waiting for a healthy state on an unhealthy natural instance uses the whole budget and times out |
| Waiting.WaitClearsAtOnce | wolphin/project.py:362-378 | pending or running natural instances reach running in the first round, with no sleep |
| Waiting.SshGate | wolphin/project.py:414-432 | an empty list passes; the only failure is `SshTimeout`; tags are kept |
| Waiting.SshGateSpec | wolphin/project.py:414-432 | the gate fails iff the list is non-empty and no round within the budget finds every instance with an address and a successful probe |
| Waiting.UnaddressedTimesOut | wolphin/project.py:462-480 | an instance with no address makes the gate time out |
| Selector.FromNumbers | wolphin/selector.py:32-33 | succeeds iff every text parses as an integer, giving those integers in order; `None` gives the empty list |
| Selector.FromNumbersRoundTrip | wolphin/selector.py:32-33 | the selector built from `str(n)` for a list of numbers holds exactly those numbers |
| Selector.Select | wolphin/selector.py:35-41 | the default selector or an empty list returns the input; otherwise it fails iff some instance's number fails to decode, and it keeps, in order, exactly the instances whose number is listed |
| Selector.SelectDistinct | wolphin/selector.py:35-41 | selecting from distinct instances gives distinct instances, no more than were given |
| Selector.SelectAbsent | wolphin/selector.py:35-41 | no instance carries a listed number, so none is selected |
| Reconcile.TopPlan | wolphin/project.py:76-93 | trim iff more are present than the maximum, keeping the maximum; reserve iff fewer, asking for `max(1, min - present)` up to the gap to the maximum; otherwise leave |
| Reconcile.TopRequestValid | wolphin/project.py:85-93 | with valid counts the reservation request satisfies `1 <= min <= max` and reaches the configured counts |
| Reconcile.NestedNeed | wolphin/wolphin/project.py:49-65 | pops iff more are present than the maximum, down to the maximum; otherwise requests up to the maximum and at least the shortfall to the minimum |
| Reconcile.NestedRequest | wolphin/wolphin/project.py:76-78 | a request is made iff the upper bound is positive; its lower bound is the needed minimum, or 1 when that is below 1, and its upper bound the needed maximum |
| Reconcile.NestedPopsWithin | wolphin/wolphin/project.py:53-56 | the pops stay within the list iff the maximum is not negative |
| Reconcile.NestedRequestValid | wolphin/wolphin/project.py:76-78 | with valid counts the request satisfies `1 <= min <= max` and reaches the maximum |
| Reconcile.LineagesAgree | wolphin/wolphin/project.py:49-65 | the lineages make the same decision: leave alike, keep the same number when trimming, and request the same range |
| Session.List | wolphin/project.py:289-313 | lists exactly the instances matching the filters, each once; each listed one is refreshed and every other one left as it was; tags are kept |
| Session.Keep | wolphin/project.py:269-277 | keeps, in order, exactly the instances whose state is wanted (or unwanted, when inverted) |
| Session.HealthyFilter | wolphin/project.py:279-287 | the healthy filter keeps exactly the instances not shutting down or terminated |
| Session.TagInstance | wolphin/project.py:351-360 | the instance gets the project's name tag with the given suffix and the project tag; its state is unchanged |
| Session.Reserve | wolphin/project.py:315-343 | a missing bound takes the configured count; `WolphinError` iff the bounds are not `1 <= lo <= hi`; `InstanceLimitExceeded` iff over the limit; otherwise between the bounds of new pending instances appended after the old ones |
| Session.LaunchedPending | wolphin/wolphin/tests/mock_boto.py:74-84 | a launch only adds instances, and every new one is pending |
| Session.MaxInUse | wolphin/project.py:121-125 | fails iff some project instance's number fails to decode; otherwise at least 0, at least every project number, attained when positive; only refreshes instances |
| Session.TagZipNumbers | wolphin/project.py:113-119 | after tagging, the k-th new instance decodes to the k-th number |
| Session.CreateExtra | wolphin/project.py:101-119 | new instances numbered consecutively from one past the largest number in use |
| Session.CountedFresh | wolphin/project.py:101-119 | every number handed to a new instance exceeds every number already in use |
| Session.ReserveTagged | wolphin/project.py:220-225 | replacement instances carry the given numbers, in order, and are all new |
| Session.ApplyRetires | wolphin/wolphin/tests/mock_boto.py:158-161 | terminating a list leaves its instances unhealthy and every other instance as it was |
| TopProject.SelectInstances | wolphin/project.py:345-349 | lists the project's instances through the selector: each selected instance belongs to the project, and none repeats |
| TopProject.SelectDefault | wolphin/project.py:345-349 | the default selector picks exactly the project's instances |
| TopProject.Status | wolphin/project.py:229-251 | lists distinct project instances; with the default selector, exactly the project's |
| TopProject.StatusByNumber | wolphin/project.py:229-251 | status for one number lists exactly the project instances carrying it |
| TopProject.InStates | wolphin/project.py:269-277 | the selected instances whose state is (or is not) one of the given codes |
| TopProject.InStatesPartition | wolphin/project.py:269-277 | "in the states" and "not in the states" split the selection between them |
| TopProject.HealthyInstances | wolphin/project.py:279-287 | succeeds iff the selection does; keeps, in the selection's order, exactly the selected instances that are healthy |
| TopProject.HealthyKept | wolphin/project.py:279-287 | the inverted filter on the unhealthy codes keeps exactly the selected instances that are healthy |
| TopProject.TargetRules | wolphin/project.py:141-147 | start acts exactly on stopped instances, stop exactly on running ones |
| TopProject.Start | wolphin/project.py:127-159 | starting keeps the number of instances and every tag; a provider without scripts stays without |
| TopProject.Stop | wolphin/project.py:161-181 | stopping keeps the number of instances and every tag; a provider without scripts stays without |
| TopProject.Reboot | wolphin/project.py:183-187 | rebooting keeps the number of instances and every tag; a provider without scripts stays without |
| TopProject.SelectStable | wolphin/project.py:345-349 | a table whose instances kept their tags selects the same instances, so every step of an operation sees one selection |
| TopProject.StartStep | wolphin/project.py:140-149 | issuing `start()` to the targets leaves every unselected instance as it was or refreshed, and every selected instance heading for running or stopped then heads for running |
| TopProject.StopStep | wolphin/project.py:168-177 | issuing `stop()` to the targets leaves every unselected instance as it was or refreshed, and every selected instance heading for running or stopped then heads for stopped |
| TopProject.StartRuns | wolphin/project.py:127-159 | on a provider without scripts, a `start` that succeeds reports exactly the selection, leaves every other instance as it was or refreshed, and leaves every selected instance that was pending, running, stopping or stopped running |
| TopProject.StopStops | wolphin/project.py:161-181 | on a provider without scripts, a `stop` that succeeds reports exactly the selection, leaves every other instance as it was or refreshed, and leaves every selected instance that was pending, running, stopping or stopped stopped |
| TopProject.RebootRuns | wolphin/project.py:183-187 | on a provider without scripts, a `reboot` that succeeds reports exactly the selection, leaves every other instance as it was or refreshed, and leaves every selected instance that was pending, running, stopping or stopped running |
| TopProject.TerminateTargets | wolphin/project.py:253-267 | the explicit instances when given, else the healthy selected ones |
| TopProject.Terminate | wolphin/project.py:253-267 | the given instances or, when none are given, the selected healthy ones end unhealthy; tags are kept; with the default selector it always succeeds |
| TopProject.StartNotRunningIsApply | wolphin/project.py:95-98 | the start loop of `_satisfy_config_requirements` is `start()` on each listed instance |
| TopProject.Satisfy | wolphin/project.py:76-98 | the kept instances are a prefix of those considered; the cloud only grows and keeps its tags |
| TopProject.SatisfyCounts | wolphin/project.py:76-98 | with valid counts, the kept instances number between the minimum and the maximum |
| TopProject.Create | wolphin/project.py:46-74 | fails only when preparing fails or, when asked to, the SSH gate times out |
| TopProject.CreateWaitsOnRetired | wolphin/project.py:62-69 | when create trims, its wait runs on instances it has just terminated and times out after the whole budget |
| TopProject.CreateTrimmed | wolphin/project.py:46-74 | create waiting on the instances it keeps; fails only as create does |
| TopProject.CreateTrimmedClears | wolphin/project.py:46-74 | waiting on the kept instances clears at once, with no sleep |
| TopProject.CreateVersionsAgree | wolphin/project.py:46-74 | when nothing is trimmed, the two forms of create agree |
| TopProject.FinishReports | wolphin/project.py:66-69 | create reports a timeout exactly when the running-state wait fails to clear, with its sleeps |
| TopProject.RevertGroup | wolphin/project.py:207-227 | fails when some number fails to decode; the reverted instances end unhealthy, and replacements carry their numbers |
| TopProject.Replace | wolphin/project.py:220-225 | the replacements are new instances carrying the given numbers in order |
| TopProject.RevertEach | wolphin/project.py:195-198 | reverting one instance at a time terminates each and replaces it with one of the same number |
| TopProject.RevertModesAgree | wolphin/project.py:189-205 | one at a time or all at once, the replacements carry the same names in the same order |
| TopProject.Revert | wolphin/project.py:189-205 | on success the selected healthy instances end unhealthy, and new instances, no two the same, carry their numbers in order; the cloud only grows and keeps its tags |
| NestedProject.Construct | wolphin/wolphin/project.py:26-29 | the constructor never yields a project: an accepted configuration ends in `TypeError`, a rejected one in its validation error |
| NestedProject.ConstructChecked | wolphin/wolphin/project.py:26-29 | the constructor with `validate` as its check: it succeeds exactly on accepted configurations |
| NestedProject.ConstructRejectsAccepted | wolphin/wolphin/project.py:26-29 | `Configuration(**kw)` with every attribute that defaults to `None` given a value is accepted by `validate`, yet gets `TypeError` from the constructor |
| NestedProject.Lookup | wolphin/wolphin/project.py:266-274 | finds exactly the instances named after one of the suffixes |
| NestedProject.SelectInstances | wolphin/wolphin/project.py:336-351 | the whole project when no suffix is given, else exactly the instances named after one; distinct when the suffixes are |
| NestedProject.Status | wolphin/wolphin/project.py:212-236 | lists exactly the selected instances |
| NestedProject.StatusByNumber | wolphin/wolphin/project.py:212-236 | status for `str(n)` lists exactly the instances with the live name for `n`, and each decodes to `n` |
| NestedProject.InState | wolphin/wolphin/project.py:259-264 | exactly the selected instances in the given state; an unknown code gives nothing |
| NestedProject.HealthyInstances | wolphin/wolphin/project.py:251-257 | exactly the selected instances that are healthy |
| NestedProject.ActUnlessIsApply | wolphin/wolphin/project.py:109-127 | the act-unless loop is the action applied to the instances not in a skipped state |
| NestedProject.ActUnlessLineagesAgree | wolphin/wolphin/project.py:109-147 | on healthy instances the nested start and stop act on the same instances as the top-level ones |
| NestedProject.Start | wolphin/wolphin/project.py:109-127 | starting keeps the number of instances and every tag; a provider without scripts stays without |
| NestedProject.Stop | wolphin/wolphin/project.py:129-147 | stopping keeps the number of instances and every tag; a provider without scripts stays without |
| NestedProject.Reboot | wolphin/wolphin/project.py:149-152 | rebooting keeps the number of instances and every tag; a provider without scripts stays without |
| NestedProject.SelectionSame | wolphin/wolphin/project.py:336-351 | a table whose instances kept their tags selects the same instances |
| NestedProject.HealthySelection | wolphin/wolphin/project.py:251-257 | each selected instance is in the table, refreshed when it has no script, and kept exactly when healthy |
| NestedProject.StartStep | wolphin/wolphin/project.py:118-123 | the start loop leaves every unselected instance as it was or refreshed, and every selected instance heading for running or stopped then heads for running |
| NestedProject.StopStep | wolphin/wolphin/project.py:137-143 | the stop loop leaves every unselected instance as it was or refreshed, and every selected instance heading for running or stopped then heads for stopped |
| NestedProject.StartRuns | wolphin/wolphin/project.py:109-127 | on a provider without scripts, `start` reports exactly the selected instances, leaves every other instance as it was or refreshed, and leaves every selected instance that was pending, running, stopping or stopped running |
| NestedProject.StopStops | wolphin/wolphin/project.py:129-147 | on a provider without scripts, `stop` reports exactly the selected instances, leaves every other instance as it was or refreshed, and leaves every selected instance that was pending, running, stopping or stopped stopped |
| NestedProject.RebootRuns | wolphin/wolphin/project.py:149-152 | on a provider without scripts, `reboot` reports exactly the selected instances, leaves every other instance as it was or refreshed, and leaves every selected instance that was pending, running, stopping or stopped running |
| NestedProject.RetiredInst | wolphin/wolphin/project.py:241-245 | a retired instance carries the retired name and is unhealthy |
| NestedProject.RetiredInstIdempotent | wolphin/wolphin/project.py:241-245 | retiring twice is retiring once |
| NestedProject.RetireEach | wolphin/wolphin/project.py:241-245 | the retire loop succeeds iff every instance's suffix contains `terminated` or its number decodes; each ends renamed and terminated |
| NestedProject.RetireEachIdempotent | wolphin/wolphin/project.py:241-245 | running the retire loop again changes nothing |
| NestedProject.Terminate | wolphin/wolphin/project.py:238-249 | succeeds iff every healthy selected instance can be retired; those end retired and the cloud only grows |
| NestedProject.RetireAll | wolphin/wolphin/project.py:186-191 | succeeds iff every number decodes; each instance ends renamed with its number kept |
| NestedProject.RevertBatch | wolphin/wolphin/project.py:184-208 | fails when some number fails; otherwise each instance is retired and replaced by a new one of the same number |
| NestedProject.RevertSeq | wolphin/wolphin/project.py:167-182 | the one-at-a-time revert: the same replacement relation as the batch |
| NestedProject.RevertModesAgree | wolphin/wolphin/project.py:154-210 | both revert modes hand out the same numbers and the same names, in order |
| NestedProject.BatchStatusShowsReplacements | wolphin/wolphin/project.py:206-208 | the status after a batch revert lists every replacement and none of the retired instances |
| NestedProject.Revert | wolphin/wolphin/project.py:154-210 | fails when a number fails to decode; otherwise every reverted instance is renamed retired and the cloud only grows |
| NestedProject.PopSurplus | wolphin/wolphin/project.py:53-57 | `IndexError` iff more pops than instances; otherwise the popped tail ends unhealthy |
| NestedProject.RebootLive | wolphin/wolphin/project.py:69-74 | rebooting healthy natural instances leaves every one live |
| NestedProject.Supply | wolphin/wolphin/project.py:76-97 | no request leaves the list as it is; a request adds between its bounds of new instances |
| NestedProject.Fit | wolphin/wolphin/project.py:49-97 | a negative maximum fails with `IndexError`; a surplus is cut to the maximum; otherwise the list is extended, and valid counts land between the minimum and maximum |
| NestedProject.Shed | wolphin/wolphin/project.py:53-57 | `IndexError` iff more pops than instances; otherwise the list loses its tail |
| NestedProject.Refill | wolphin/wolphin/project.py:76-97 | extends the kept list with new instances, within the request's bounds |
| NestedProject.Prepare | wolphin/wolphin/project.py:36-97 | a negative maximum fails with `IndexError`; valid counts yield between the minimum and maximum distinct instances, all live |
| NestedProject.Create | wolphin/wolphin/project.py:36-107 | fails iff preparing fails, with its error |
| NestedProject.CreateClears | wolphin/wolphin/project.py:99-101 | on a natural provider the wait after create clears at once |
| NestedProject.CreateNegativeMax | wolphin/wolphin/project.py:53-56 | a negative maximum makes create fail with `IndexError` |
| Config.Unquote | wolphin/config.py:113-116 | strips one matching pair of quotes and leaves other words unchanged |
| Config.UnquoteQuoted | wolphin/config.py:113-116 | unquoting a quoted word gives back the word |
| Config.Entry | wolphin/config.py:118-119 | comment lines and lines without `=` give nothing; a second `=` fails; otherwise the stripped and unquoted key and value |
| Config.EntryOfPropertyLine | wolphin/config.py:101-111 | `k = "v"` and `k = 'v'` parse back to the pair `(k, v)` |
| Config.AsDict | wolphin/config.py:118-119 | fails iff some line fails; otherwise holds exactly the keys some line sets, each with the value of the last line setting it |
| Config.New | wolphin/config.py:23-83 | only known attributes are accepted; each given one overrides its default |
| Config.Update | wolphin/config.py:135-137 | the given keys take the given values and every other key is kept |
| Config.ParseConfigFile | wolphin/config.py:99-128 | fails when a line fails or an integer attribute does not convert; otherwise the file's values override the old ones and the integer attributes become integers |
| Config.ParseIdempotent | wolphin/config.py:99-128 | parsing the same file again changes nothing |
| Config.ParseFiles | wolphin/config.py:86-97 | no files leave the configuration as it is; after any file, the integer attributes are integers |
| Config.Create | wolphin/config.py:86-97 | no files give the defaults; otherwise every default attribute is present and the integer attributes are integers |
| Config.FileSets | wolphin/config.py:120-121 | a text attribute a file sets takes that value; one it does not set keeps its old value |
| Config.LaterFileWins | wolphin/config.py:86-97 | a text attribute takes its value from the last file that sets it |
| Config.EmailMatches | wolphin/config.py:147 | the email test holds iff the first line has a character, an `@`, a character, a dot and a character, in that order |
| Config.CheckFields | wolphin/config.py:142-148 | passes iff no attribute is false and the email matches; a false attribute fails it |
| Config.Validate | wolphin/config.py:139-154 | passes iff the fields pass and `0 < min <= max` holds under Python 2's ordering across types |
| Config.ValidateCounted | wolphin/config.py:151-154 | passes iff the fields pass and both counts convert to integers with `0 < min <= max` |
| Config.ValidateAgreesOnIntegers | wolphin/config.py:151-154 | on integer counts the two forms of validation agree |
| Config.ZeroTextCounts | wolphin/config.py:151-154 | text counts `'0'` and `'0'` pass `validate` and fail the integer form |
| Config.NegativeTextCounts | wolphin/config.py:151-154 | text counts `'-1'` and `'-1'` pass `validate` although the maximum converts to -1 |
| Config.CountedMaxPositive | wolphin/config.py:151-154 | a configuration the integer form accepts has a maximum of at least 1 |
| Config.NewValidates | wolphin/config.py:139-154 | a configuration whose keywords give every attribute left as `None` a true value and a matching email, with the default counts, is accepted |
| Config.DefaultsRejected | wolphin/config.py:23-83 | the default configuration fails validation because an attribute is missing |

## Left out

- TopProject.Start: its own contract states what it keeps. What it does to the selection is stated by `TopProject.StartRuns`, for a provider without scripts only.
- TopProject.Stop: its own contract states what it keeps. What it does to the selection is stated by `TopProject.StopStops`, for a provider without scripts only.
- TopProject.Reboot: its own contract states what it keeps. What it does to the selection is stated by `TopProject.RebootRuns`, for a provider without scripts only.
- NestedProject.Start: its own contract states what it keeps. What it does to the selection is stated by `NestedProject.StartRuns`, for a provider without scripts only.
- NestedProject.Stop: its own contract states what it keeps. What it does to the selection is stated by `NestedProject.StopStops`, for a provider without scripts only.
- NestedProject.Reboot: its own contract states what it keeps. What it does to the selection is stated by `NestedProject.RebootRuns`, for a provider without scripts only.
- TopProject.StartRuns: holds for a provider without scripts only. A scripted instance takes whatever state its script names next, so no end state can be promised for it. Shutting-down and terminated instances are not started or stopped, and the lemma promises nothing about them.
- TopProject.StopStops: holds for a provider without scripts only. A scripted instance takes whatever state its script names next, so no end state can be promised for it. Shutting-down and terminated instances are not started or stopped, and the lemma promises nothing about them.
- TopProject.RebootRuns: holds for a provider without scripts only. A scripted instance takes whatever state its script names next, so no end state can be promised for it. Shutting-down and terminated instances are not started or stopped, and the lemma promises nothing about them.
- NestedProject.StartRuns: holds for a provider without scripts only. A scripted instance takes whatever state its script names next, so no end state can be promised for it. Shutting-down and terminated instances are not started or stopped, and the lemma promises nothing about them.
- NestedProject.StopStops: holds for a provider without scripts only. A scripted instance takes whatever state its script names next, so no end state can be promised for it. Shutting-down and terminated instances are not started or stopped, and the lemma promises nothing about them.
- NestedProject.RebootRuns: holds for a provider without scripts only. A scripted instance takes whatever state its script names next, so no end state can be promised for it. Shutting-down and terminated instances are not started or stopped, and the lemma promises nothing about them.
- MockEc2.GetAllInstances: lists in id (creation) order, whereas `get_all_instances` iterates a dict (`wolphin/wolphin/tests/mock_boto.py:96`), whose order CPython 2 leaves unspecified. Three things depend on that order: which instances `healthy.pop()` terminates, which ones `healthy[max_number_needed:]` terminates, and which revert replacement carries which number. The model fixes one order, and its contracts hold for that order.
- MockEc2.GetAllInstances: filters are keyed by bare tag name. The `tag:` prefix strip is modelled separately by `MockEc2.FilterTag` and `MockEc2.FilterTagOfPrefixed`.
- NestedProject.PopSurplus: on `IndexError` the result carries no provider state. The code has already terminated the instances it popped before the failure.
- NestedProject.RetireEach: on failure it returns no provider state. The code has already renamed and terminated the instances before the one whose number fails to decode.
- NestedProject.Terminate, NestedProject.Revert, NestedProject.Create, TopProject.Revert, TopProject.Create: likewise, every `Failure` drops the provider state the partial work left behind, and says only which exception ends the operation.
- Config.Validate: does not model the `.pem` existence check (`wolphin/config.py:156-159`), because it asks the file system.
- Config.CheckFields: a false attribute fails with one fixed message. The code names the first false attribute in dict iteration order, which is unspecified.
- TopProject.Create, TopProject.Satisfy: the top-level lineage reads its settings from `Settings`, whose counts and tries are integers. The raw configuration attributes are used as they are, so a text count or text `max_wait_tries` makes the source raise `TypeError`: at wolphin/project.py:79 (`max_instance_count - already_present`) and at wolphin/project.py:370 (`range(max_wait_tries)`). That path is not modelled. Config.ZeroTextCounts shows such counts can pass `validate`.
- NestedProject.Construct: models only the unpack of `validate()`'s result. Every other nested operation takes `Settings`, which stands for the values of a configuration that was accepted.
- Connections and credentials (`connect_to_region`, `ssh_key_file`), reading the configuration files from disk (the model takes their lines), and the top-level factory `new` are not modelled beyond `Config.Validate`.
- Output is not modelled: `print_status`, the colour table, logging and `print`. `status()` records are represented by the ids of the instances listed.
- `time.sleep` is counted, not performed. The SSH connection attempt is the `probe` parameter.
- NestedProject.RebootLive: the reboot call's `EC2ResponseError` fallback to `start()` (`wolphin/wolphin/project.py:70-74`) is not modelled, because the mock's `reboot` never raises.
- MockEc2.ScriptedUpdateCycles: scripts are non-empty by type. The mock's wrap test `index == len` is written as `>=`, which is equivalent because the index never exceeds the length.
- MockEc2.RunInstances: takes integer counts. The mock receives text counts and converts them with `int()`.
- Text.ParseInt: follows Python 2 `int()` on ASCII white space and decimal digits only. Unicode digits and other bases are not modelled.

## Findings

| source | as written | input that shows it | evidently intended | confidence | as-written member | corrected member |
|---|---|---|---|---|---|---|
| wolphin/project.py:62-69 | `_satisfy_config_requirements` rebinds its own local `healthy` when trimming, so `create` waits on and SSH-gates the untrimmed list, which includes the instances it just terminated | three healthy natural instances and `max_instance_count = 2`: the wait for running never clears and uses the whole budget | wait on the instances that were kept | high; not executed | TopProject.CreateWaitsOnRetired | TopProject.CreateTrimmedClears |
| wolphin/config.py:151 | `0 < min <= max` compares the raw attributes; under Python 2 any text is greater than any int | `Configuration(min_instance_count='0', max_instance_count='0')` passes, although `test_configuration.py:41` expects it rejected | convert the counts before comparing | high; not executed | Config.ZeroTextCounts | Config.ValidateCounted |
| wolphin/wolphin/project.py:53-56 | the nested `create` pops `present - max` times, and text counts `'-1'` pass validation | `max_instance_count = '-1'` with one healthy instance: the second `pop()` raises `IndexError` after the first instance was terminated | reject a negative maximum in validation | high; not executed | NestedProject.CreateNegativeMax | Config.CountedMaxPositive |
| wolphin/project.py:370-377 | the top-level wait sleeps after every failed attempt, the last one included | any wait that times out: `max_wait_tries` attempts and `max_wait_tries` sleeps | sleep only between attempts, as the nested lineage does | medium; not executed | Polling.TopSleepsAfterLast | Polling.NestedSleepsBetween |
| wolphin/wolphin/project.py:26-29 | the constructor unpacks `config.validate()` into two names, but `validate` returns `None` when it accepts | any accepted configuration, e.g. `Configuration(project='demo', email='a@b.cd', amazon_keypair_name='demo-key', pem_file='demo.pem', pem_path='keys', aws_access_key_id='key-id', aws_secret_key='secret')` with the default counts 1 and 1: unpacking `None` raises `TypeError` | let `validate` raising be the check, as the top-level `new` does | high; not executed | NestedProject.ConstructRejectsAccepted | NestedProject.ConstructChecked |
