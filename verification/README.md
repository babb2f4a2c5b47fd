# Verified model of the Realtek Wi-Fi driver core

A Dafny model of the parts of the driver's core layer that carry state: the
regulatory request engine and its channel set, the multi-link inheritance codec,
the command completion handshake, beacon editing with the TIM and the channel
switch, and the access point's station bookkeeping. Each part is proved against a
simple specification, for all inputs, all runs or all interleavings.

Where the C code updates fields or buffers in place the model does too: classes
and array methods with loops, each tied by its `ensures` to a specification
function whose laws are separate lemmas. Code that two threads or a dispatcher run
against each other is a state machine over its steps.

`dafny verify dfyconfig.toml` checks everything.

## Parts

| files | what they cover |
|---|---|
| `Requests`, `CountryIe`, `Selection`, `Regulatory` | the request list, the country records of the links, the choice and summary of the applied requests, the command handler |
| `Resync`, `ListShape`, `RfControl`, `Received` | when the selection is skipped, the list over every run, the in-place code, the record made from a Country element |
| `ChannelSet`, `BeaconHints`, `SupportedChannels` | folding plans into channel flags, width checks, beacon hints over time, the Supported Channels element |
| `Commands` | what a command means to its giver: USER request, settings, applied requests, effect, enable status |
| `Device` | the engine and the channel set together: when a command leaves the set behind the list |
| `Elements`, `Beacon`, `Tim`, `ChannelSwitch` | element buffers, in-place edits of the beacon, TIM, channel-switch countdown |
| `Inheritance`, `InheritanceCodec` | the per-link difference, on element lists and on bytes |
| `Handshake` | submitter, timeout and worker of a queued command |
| `ApStations`, `StaCmdQueue`, `Acl` | counters and beacon fields, the add/delete-station queue, the access list |
| `Seqs`, `Options` | identities between slices and concatenations; a value that may be missing |

## Results that go against a plain reading of the code

Each has a lemma that says exactly when the code does meet the expectation, and one
at a concrete input where it does not.

- A USER request can be stored and yet not applied. When it changes the country flags
  or switches the following of country elements on or off, and the COUNTRY_IE requests
  then called for are those already in the list, the handler reports "no effect" and
  the selection is skipped (`Resync.MissedIff`, `ListShape.MissedExample`). What that
  leaves behind, and that nothing else is ever left behind: `Resync.SyncIff`.
- The channel set is regulated by commands with an effect only, so a missed command
  that overwrites an applied USER plan can leave a set that accepts a channel the plan
  now applied refuses. The set is sound for the present list if and only if no
  overwriting plan denies a channel the set has enabled, and merged from it if and
  only if none differs from the old one on a channel of the set (`Device.EveryDevRun`,
  `Device.StepSoundIff`, `Device.StepCurrentIff`). `Device.StaleSet` is the run "US",
  "JP", world-wide: plan 0x7D has channel 14 and plan 0x7F ends at 13
  (core/regdb/rtw_regdb_rtk_64-42.c:144-147, 345-347).
- What the set accepts the plan accepts if and only if the two passive-channel switches
  are equal or the plan's primary channel is not passive, and passive channels are
  allowed or no channel of the width has been made active by a hint
  (`ChannelSet.SetIsSound`). With passive channels not allowed, as
  core/rtw_ap.c:4908, core/rtw_dfs.c:1478 and core/rtw_cmd.c:598 ask the set, a lifted
  channel is accepted that the plan refuses (`ChannelSet.LiftedDiffers`), which is what
  hints are for.
- The ERP octet comes with the upper layer's beacon and is rewritten only when the
  first non-ERP station comes or the last one goes. Its protection bits are right if
  and only if they were at the start or that has happened since (`ApStations.ErpIff`,
  `ApStations.StaleErp`).
- The TIM start octet takes the group bit of AID 0 into account, so the element is
  longer than needed exactly when that bit stands alone in the first two octets and
  a later octet is set (`Tim.ShortestIff`, `Tim.LongerExample`).
- A vendor-specific element that differs from the primary link's is neither sent nor
  listed as not inherited, so the receiver ends with the primary's. The inheritance
  round trip holds if and only if there is no such element
  (`Inheritance.RoundTripIff`, `Inheritance.VendorExample`).
- Removing an element undoes its insertion unless its body was empty
  (`Beacon.RemoveUndoesAdd`, `Beacon.EmptyBodyStays`).
- An object may sit in the add/delete-station queue without a token
  (`StaCmdQueue.StrandedIff`, `StaCmdQueue.StrandedByRace`), and the 8-bit counter is
  the queue length only below 256 (`StaCmdQueue.CounterExact`,
  `StaCmdQueue.CounterWraps`).

The two width checks also read differing switches differently
(`ChannelSet.SwitchesDiffer`). No call of the driver shows it: the plan check is called
with both switches set (core/rtw_chplan.c:1301), and
rtw_country_chplan_is_bchbw_valid, which passes its own, has no caller.

The handshake itself would leak a response that a failed handler left, or one of a
command that names no function to free it (`Handshake.EveryInterleaving`). No command
of the driver is of that kind: the only response is the channel plan's
(core/rtw_chplan.c:3332), its free function is always set (3375), and its handler
stores one only on success. `Handshake.NeverLeaks` is the statement for such commands.

## Model

| member | source | states |
|---|---|---|
| `Requests.RebuildHolds` | core/rtw_chplan.c:2213-2279 | whatever the list was, clearing the counts, adding one reference per plan and dropping unreferenced requests leaves one request per plan, its count being the number of uses, and touches no other request |
| `CountryIe.Select` | core/rtw_chplan.c:2341-2380 | the selection loop returns a record of some link with a country, of the highest score among them, and none exactly when no link has a country |
| `CountryIe.SelectIsChoice` | core/rtw_chplan.c:2347-2363 | the loop ends with the first top-scored record that keeps the status and country in effect, or if there is none the first top-scored record |
| `CountryIe.SelectStatus` | core/rtw_chplan.c:2335-2339 | an unknown country is preferred to one without the operating channel, and that to an applicable one |
| `CountryIe.ScannedRight` | core/rtw_chplan.c:2382-2433 | with scanned networks as the source, a forced rebuild follows the scan results: one request per plan counting its networks, or one for a best record |
| `CountryIe.FirstExit` | core/rtw_chplan.c:2281-2333 | a link update that the comparison calls harmless leaves the requests right for the new records |
| `CountryIe.SecondExit` | core/rtw_chplan.c:2435-2459 | skipping the rebuild because the effective plan is unchanged leaves the requests right, even across a change of the enable status |
| `CountryIe.HandleRight` | core/rtw_chplan.c:2500-2553 | after country handling, by whichever exit, the effective record is a best one and the requests are exactly what the records call for |
| `Selection.SummedIsFold` | core/rtw_chplan.c:2690-2727 | the marking loop's running summary is the fold of the requests it marks |
| `Selection.OrderDoesNotMatter` | core/rtw_chplan.c:2694-2727 | source, initiators, country, domain and protocols are determined by which requests apply, not by their order |
| `Selection.SelectionLaw` | core/rtw_chplan.c:2651-2732 | a non-empty list always has an applied request; permuting the list leaves the choice and the summary as they are; the summary is the common country and domain or the codes for none, and the protocols all allow |
| `Selection.SelectedMeans` | core/rtw_chplan.c:2659-2682 | the OS source exactly when some request has it; of the chosen source CORE, DRIVER, COUNTRY_IE, USER or INIT, the first that occurs |
| `Regulatory.RebuildShape` | core/rtw_chplan.c:2228-2279 | a rebuild adds and removes COUNTRY_IE requests only: INIT and USER stay, with the length in step |
| `Regulatory.ReselectShape` | core/rtw_chplan.c:2651-2732 | a reselection writes marks, summary and enable status and nothing else, and leaves an applied request |
| `Regulatory.InitialInv` | core/rtw_chplan.c:1888-1898 | the state at power-on satisfies the invariant |
| `Regulatory.StepKeeps` | core/rtw_chplan.c:2556-2648 | every Realtek-source command, whichever exits it takes, keeps the list in shape, the enable status up to date and the COUNTRY_IE requests right |
| `Regulatory.HoldsMeans` | core/rtw_chplan.c:2248-2279 | what "right" means for one plan: a request exists exactly when the plan is in use, and counts its uses |
| `Regulatory.EveryRun` | core/rtw_chplan.c:2500-2601 | from power-on, after every run: in intersect mode each plan of a link with a country has one request counting those links, in select mode one request for a best record exactly when some link has a country, none when disabled |
| `Commands.PowerOn` | core/rtw_chplan.c:1888-1898 | the list, summary, records and settings at power-on |
| `Commands.UserPlanLaw` | core/rtw_chplan.c:2149-2185 | after a well-formed USER command that names a plan, user_req points to a request with the country's plan, or with no country one of the requested domain, alpha2 "00" for 0x7F and "99" otherwise; after any other the USER request is as it was |
| `Commands.SettingsLaw` | core/rtw_chplan.c:2020-2147 | every setting the command carries is in force afterwards and every other as it was; a mode out of range or an ill-formed command changes none |
| `Commands.SettingsEffect` | core/rtw_chplan.c:2020-2147 | exactly when a command for settings alone reports an effect |
| `Commands.SamePlanQuiet` | core/rtw_chplan.c:2172-2177 | a command for the plan the USER request already has does nothing |
| `Commands.EveryEffect` | core/rtw_chplan.c:2684-2727 | from power-on, after a command with an effect: COUNTRY_IE requests are applied if there are any, else the USER request, else INIT, beside them INIT and USER under their switches, and the summary is that of the requests marked |
| `Commands.EnabledMeans` | core/rtw_chplan.c:1743-1755 | over every run, when country elements are followed |
| `Commands.OsLaw` | core/rtw_chplan.c:2608-2638 | an OS command leaves INIT and its own request, which alone is applied and summarised, and country elements are no longer followed |
| `Resync.QuietHandle` | core/rtw_chplan.c:2529-2549 | when country handling reports no effect the list is the same up to reference counts |
| `Resync.EffectIff` | core/rtw_chplan.c:2529-2549 | country handling that is forced, or that switches the feature on or off, reports an effect exactly when the list is not the wanted one |
| `Resync.MissedIff` | core/rtw_chplan.c:2579-2597 | a changed USER request goes unapplied if and only if no other setting waits to take effect, the command changes the country flags or toggles the following of country elements, and the requests then called for are those in the list |
| `Resync.PlainFollows` | core/rtw_chplan.c:2651-2732 | with no COUNTRY_IE request: a first USER request that is missed is always left behind, and overwriting one leaves the summary right exactly when the new plan, with INIT's where that always applies, amounts to it |
| `Resync.SyncIff` | core/rtw_chplan.c:2556-2787 | after every Realtek-source command marks and summary are those of the list if and only if the command was not missed, or the selection would have left the list as it is |
| `ListShape.OsShape` | core/rtw_chplan.c:2608-2638 | an OS command keeps INIT once, USER at most once with user_req pointing at it, and the length |
| `ListShape.StepShape` | core/rtw_chplan.c:2556-2732 | the same for every command of either source, and some request stays applied |
| `ListShape.EveryReachableList` | core/rtw_chplan.c:1577-1589 | the same from power-on, for every run of commands of both sources |
| `ListShape.PlainMissed` | core/rtw_chplan.c:2573-2601 | a plan selected while no link has a country is missed exactly when it toggles the following of country elements |
| `ListShape.MissedExample` | core/rtw_chplan.c:2592-2597 | a concrete missed request: world-wide selected on a "US" device that follows country elements in world-wide mode |
| `RfControl.AltersLaw` | core/rtw_chplan.c:2531-2546 | "a request was added or one was deleted" says exactly that some wanted plan was missing or some requested plan is not wanted |
| `RfControl.Choose` | core/rtw_chplan.c:2341-2363 | the loop over the records computes the selection function |
| `RfControl.Decide` | core/rtw_chplan.c:2659-2682 | the first two loops compute the highest source and its highest initiator |
| `RfControl.RfCtl.constructor` | core/rtw_chplan.c:1888-1898 | the initial fields are the initial state |
| `RfControl.RfCtl.ClearRefCnt` | core/rtw_chplan.c:2213-2226 | the counts of the COUNTRY_IE requests are zeroed in place, nothing else |
| `RfControl.RfCtl.ClearZeroRef` | core/rtw_chplan.c:2228-2246 | unlinking while walking removes exactly the unreferenced requests, keeps the count, and reports whether any went |
| `RfControl.RfCtl.AddCountryIeReq` | core/rtw_chplan.c:2248-2279 | counts a reference on the request of the plan or appends one; reports an insertion exactly when the plan was absent |
| `RfControl.RfCtl.AddFromRecords` | core/rtw_chplan.c:2461-2498 | one reference per record with a country; reports whether some plan was new |
| `RfControl.RfCtl.UpdatePerLink` | core/rtw_chplan.c:2281-2333 | the slots of the link hold the record; reports a change exactly when records (or, when intersecting, plans) differ |
| `RfControl.RfCtl.UpdateEffected` | core/rtw_chplan.c:2435-2459 | the effective record is the selected one; reports a change of its plan |
| `RfControl.RfCtl.CountryIe` | core/rtw_chplan.c:2500-2553 | the method with its two early exits is the abstract handling, and its result says whether the list was altered |
| `RfControl.RfCtl.User` | core/rtw_chplan.c:2573-2601 | the USER branch is the abstract one |
| `RfControl.RfCtl.FromOs` | core/rtw_chplan.c:2608-2638 | the OS branch, unlinking in place, is the abstract one |
| `RfControl.RfCtl.Reselection` | core/rtw_chplan.c:2651-2732 | the three loops are the abstract reselection |
| `RfControl.RfCtl.SetChplan` | core/rtw_chplan.c:2734-2787 | one command on the fields is one abstract step, so it keeps the shape, an applied request, and the invariant |
| `Received.RecordHonest` | core/rtw_chplan.c:1256-1328 | a record has a zeroed plan exactly when it has no country, and takes over a country's plan only if that allows the operating channel |
| `Received.RecordMeans` | core/rtw_chplan.c:1256-1328 | which received code gives which status and plan, with code, band and channel kept |
| `ChannelSet.MeetLaw` | core/rtw_chplan.c:198-312 | a 2.4 or 5 GHz channel is disabled iff its band is off, it is excluded, or an applied plan lacks it or gives it a forbidden flag; otherwise its flags are the union over the plans |
| `ChannelSet.FlagsLaw` | core/rtw_chplan.c:198-312 | the same with the band, exclusion and plan conditions spelt out |
| `ChannelSet.MeetOrder` | core/rtw_chplan.c:250-285 | the flags do not depend on the order of the requests |
| `ChannelSet.SetIsSound` | core/rtw_chset.c:169-214 | a width the set accepts is accepted by an applied plan under the same exclusions if and only if the two passive switches are equal or the plan's primary channel is not passive, and passive channels are allowed or no 20 MHz channel of the width is active in the set and passive by the plan |
| `ChannelSet.SetIsComplete` | core/rtw_chplan.c:143-190 | at 20 MHz, on a channel of the set whose band is on, what every applied plan accepts the set accepts, whatever the switches |
| `ChannelSet.WidthLaw` | core/rtw_chset.c:169-214 | a width of any size is accepted exactly when each of its 20 MHz channels is enabled, no applied plan gives it a flag that forbids 40, 80 or 160 MHz at its place, and it is not passive where that is not allowed |
| `ChannelSet.SwitchesDiffer` | core/rtw_chplan.c:178-182 | a lone passive channel that the set accepts and the plan refuses, in both settings with different switches |
| `ChannelSet.LiftedDiffers` | core/rtw_chset.c:188-194 | channel 13 lifted by a hint, accepted by the set and refused by the plan when passive channels are not allowed |
| `ChannelSet.Search` | core/rtw_chset.c:132-147 | the first enabled channel of that band and number, every earlier one being disabled, or none if all are |
| `ChannelSet.IsExcluded` | core/rtw_chplan.c:106-117 | the loop computes the exclusion predicate |
| `ChannelSet.ExcludedMeans` | core/rtw_chplan.c:106-117 | a channel is excluded exactly when it stands in the list before the first 0 |
| `ChannelSet.IsSetValid` | core/rtw_chset.c:169-214 | the loop accepts a width exactly when all its 20 MHz channels pass |
| `ChannelSet.IsPlanValid` | core/rtw_chplan.c:143-190 | the same against one plan |
| `BeaconHints.StepSetInv` | core/rtw_chplan.c:287-453 | regulation establishes, and every hint and expiry keeps: flags are the meet up to a lifted NO_IR, and a channel passive by the rules is active only on a running hint, where rules and channel allow one |
| `BeaconHints.EveryHintRun` | core/rtw_chplan.c:316-453 | over every run NO_IR implies reg_no_ir, no DFS channel and no 2.4 GHz channel up to 11 is lifted, and the set stays sound for every applied plan |
| `BeaconHints.HeardLaw` | core/rtw_chplan.c:370-398 | a beacon heard clears NO_IR exactly under rules "00", "99" or "98" on a channel neither DFS nor 2.4 GHz up to 11, and changes no other flag |
| `BeaconHints.RegulatedLaw` | core/rtw_chplan.c:316-337 | regulation clears the plans' NO_IR exactly where a hint is running and may help |
| `BeaconHints.HintRuns` | core/rtw_chset.h:80-82 | a hint heard at a time with a validity below half the clock runs for that long and no longer, one tick more where its end would read as stopped |
| `BeaconHints.ExpiredLaw` | core/rtw_chplan.c:436-449 | a pass leaves running and stopped hints alone, stops an expired one and restores NO_IR if the rules say so |
| `BeaconHints.HintLasts` | core/rtw_chplan.c:316-449 | over every run, a channel made active by a beacon stays active until its hint ends |
| `BeaconHints.ExpiryLaw` | core/rtw_chplan.c:416-453 | after an expiry pass with no interface active every lifted channel has an unexpired hint; with one active nothing changes |
| `BeaconHints.RegulateTwice` | core/rtw_chplan.c:287-343 | regulating again at once changes nothing, so the reset loses no running hint |
| `BeaconHints.NeverLifted` | core/rtw_chplan.c:350-368 | under a single country's rules, and on 2.4 GHz channels up to 11, no hint of any validity has an effect on the flags |
| `BeaconHints.ChSet.ApplyFrom` | core/rtw_chplan.c:198-248 | the loop applies one plan to every channel in place |
| `BeaconHints.ChSet.ApplyRegulatory` | core/rtw_chplan.c:287-343 | reset, requests and hints together are the abstract regulation; enable_ch_num is the number of channels without DIS |
| `BeaconHints.ChSet.ProcessHint` | core/rtw_chplan.c:370-398 | the hint reaches the channel found and no other; the result is the number of channels made active |
| `BeaconHints.ChSet.ExpireHints` | core/rtw_chplan.c:416-453 | the pass stops expired hints and restores NO_IR; reports exactly whether a channel went passive |
| `Device.QuietStep` | core/rtw_chplan.c:2751-2754 | a command without effect changes nothing that the set is made from except the plan of a USER request |
| `Device.DevStepInv` | core/rtw_chplan.c:2734-2787 | commands, hints and expiry passes keep: the set is the one merged from the state it was last regulated with, and the present list differs from that by a USER plan at most |
| `Device.CurrentIff` | core/rtw_chplan.c:2751-2764 | the set is merged from the present list if and only if no applied plan was overwritten since by one that differs from it on a channel of the set |
| `Device.StepCurrentIff` | core/rtw_chplan.c:2751-2764 | being merged from the list, as a condition on a command before it is given |
| `Device.SoundIff` | core/rtw_chplan.c:2751-2764 | what the set accepts every plan now applied accepts, if and only if no applied plan was overwritten since the last regulation by one that denies a channel the set has enabled |
| `Device.StepSoundIff` | core/rtw_chplan.c:2751-2764 | the same as a condition on a command before it is given |
| `Device.EveryDevRun` | core/rtw_chplan.c:2734-2787 | both conditions over every run from power-on |
| `Device.StaleSet` | core/rtw_chplan.c:2592-2597 | the run "US", "JP", world-wide, after which the set accepts channel 14 and the applied plan refuses it |
| `Device.SetChplanHdl` | core/rtw_chplan.c:2734-2787 | on the driver's fields, one command is one step of engine and set together |
| `SupportedChannels.RunsRoundTrip` | core/rtw_chset.c:291-332 | expanding the pairs gives back the channels in order, and no two neighbouring pairs could be merged |
| `SupportedChannels.Shortest` | core/rtw_chset.c:291-332 | no list of pairs standing for the same channels is shorter |
| `SupportedChannels.ElementRoundTrip` | core/rtw_chset.c:291-332 | the same round trip from the octets of the body |
| `SupportedChannels.ListedAt` | core/rtw_chset.c:298-307 | every enabled 2.4 or 5 GHz channel is announced at its place, and nothing else |
| `SupportedChannels.SetSptChs` | core/rtw_chset.c:291-339 | the buffer gets the element with that body and its length, or nothing when no channel is enabled; octets before and behind stay |
| `Elements.EncodeInjective` | core/rtw_ieee80211.c:285-304 | element lists with bodies below 256 octets have distinct encodings |
| `Elements.ParseEncode` | core/rtw_ieee80211.c:285-304 | reading identifier, length and body from the octets gives back the elements |
| `Elements.GetIe` | core/rtw_ieee80211.c:380-406 | position and body length of the first element with the identifier, or none |
| `Beacon.AddIsOrderedPut` | core/rtw_ap.c:170-241 | on a sorted list "replace or insert in order, all else unchanged" has exactly one outcome, the one produced |
| `Beacon.TakesPlace` | core/rtw_ap.c:178-205 | exactly when an addition takes place, in octets and elements |
| `Beacon.AddKeepsOthers` | core/rtw_ap.c:170-241 | elements of other identifiers stay, in order, on any list |
| `Beacon.RemoveUndoesAdd` | core/rtw_ap.c:243-278 | removal restores the list if and only if the body was not empty, or nothing was added |
| `Beacon.EmptyBodyStays` | core/rtw_ap.c:243-278 | a concrete element with an empty body that is added and not removed |
| `Beacon.AddLength` | core/rtw_ap.c:219-240 | the exact new length of the octets |
| `Beacon.Template.FindAnchor` | core/rtw_ap.c:183-200 | the search loop finds the match, else the last smaller element |
| `Beacon.Template.AddBcnIe` | core/rtw_ap.c:170-241 | where the result fits in the buffer, the octets stay a well-formed beacon whose element list is the abstract addition |
| `Beacon.Template.RemoveBcnIe` | core/rtw_ap.c:243-278 | the same for removal |
| `Tim.RoundTrip` | core/rtw_ap.c:48-85 | decoding by section 9.4.2.5 of IEEE 802.11-2020 gives back every bitmap of 1 to 250 octets; no length wraps |
| `Tim.ShortestIff` | core/rtw_ap.c:54-71 | a shorter encoding exists if and only if the bit of AID 0 stands apart |
| `Tim.LongerExample` | core/rtw_ap.c:54-71 | a concrete bitmap encoded in three octets where one would do |
| `Tim.Scan` | core/rtw_ap.c:54-71 | the two loops find the even start and the end of the set octets |
| `Tim.SetTimIe` | core/rtw_ap.c:48-85 | where the element fits, it is written at its place, its length returned, the rest of the buffer unchanged |
| `Tim.RefreshKeepsOthers` | core/rtw_ap.c:87-168 | refreshing the TIM leaves every other element unchanged and in order |
| `Tim.LeadMeans` | core/rtw_ap.c:117-143 | without a TIM, it goes in behind the leading SSID, rates and DS elements |
| `Tim.UpdateBcnTim` | core/rtw_ap.c:87-168 | where the result fits, which octets are replaced or where the element is inserted, on any beacon; at a boundary, the element list is the refreshed one |
| `ChannelSwitch.BuildCounts` | core/rtw_csa.c:171-238 | building on a beacon without switch elements is the start of the countdown, and changes nothing else |
| `ChannelSwitch.BuildKeepsPresent` | core/rtw_csa.c:185-238 | building leaves a switch element that is already there, and every other element, as it is |
| `ChannelSwitch.CountingReads` | core/rtw_csa.c:77-169 | at every point of the countdown a receiver reads mode, channel, class and count from the announcements, and the offset, width and segment of the new channel |
| `ChannelSwitch.CountStep` | core/rtw_csa.c:472-492 | one update from any point of the countdown leads to the next |
| `ChannelSwitch.Countdown` | core/rtw_ap.c:3456-3556 | a switch started with count n is read as (mode, channel, n-k+1) after its k-th update on CSA and with the class on ECSA, with offset and width until update n, and from update n+1 on the beacon is the original |
| `ChannelSwitch.RemoveOwn` | core/rtw_ap.c:243-278 | removal takes the first element of an identifier if it has a body, and nothing else |
| `ChannelSwitch.Switch.Trigger` | core/rtw_csa.c:171-238 | on octets, where the result fits in the buffer, building is the abstract one |
| `ChannelSwitch.Switch.UpdateAnnouncement` | core/rtw_ap.c:3456-3534 | on octets, updating one announcement is the abstract one |
| `ChannelSwitch.Switch.UpdateBeacon` | core/rtw_csa.c:472-492 | on octets, an update is the abstract one |
| `ChannelSwitch.Switch.WholeSwitch` | core/rtw_csa.c:472-492 | the octets on the air before each update read as above, and after n+1 updates the octets of the beacon are the original ones |
| `Inheritance.ResultCount` | core/rtw_eht.c:34-70 | how often an element occurs in the receiver's result, from what was changed, lost and inherited |
| `Inheritance.SentMeans` | core/rtw_eht.c:204-243 | an element is sent exactly when the primary link does not have it, a vendor-specific one where both have one aside |
| `Inheritance.ListedMeans` | core/rtw_eht.c:244-263 | a key is listed as not inherited exactly when the primary link has it and the link does not |
| `Inheritance.RoundTripIff` | core/rtw_eht.c:204-265 | the receiver gets back the elements of the link if and only if vendor-specific elements agree where both links have one |
| `Inheritance.VendorLost` | core/rtw_eht.c:204-265 | a differing vendor-specific element never reaches the receiver |
| `Inheritance.VendorExample` | core/rtw_eht.c:204-265 | two concrete links for which nothing is sent and the lists differ |
| `InheritanceCodec.GetIeEx` | core/rtw_ieee80211.c:418-450 | position and total length of the first match by identifier or extension identifier |
| `InheritanceCodec.RemoveIe` | core/rtw_ieee80211.c:647-681 | every match goes, the rest closes up in place |
| `InheritanceCodec.BuildInheritedIes` | core/rtw_eht.c:204-265 | the octets written are those of the difference, and their number is returned modulo 256 |
| `InheritanceCodec.UpdateIesWithInheritance` | core/rtw_eht.c:34-70 | the buffer ends with the octets of the difference applied |
| `InheritanceCodec.DifferenceReady` | core/rtw_eht.c:204-265 | every difference is one the receiver can apply, with the round trip as above |
| `InheritanceCodec.SendAndApply` | core/rtw_eht.c:34-70 | sender and receiver composed on octets: the copy ends with the elements of the link if and only if vendor-specific elements agree |
| `Handshake.StepInv` | core/rtw_cmd.c:349-387 | each statement of submitter and worker keeps the invariant on mutex, context, command and response |
| `Handshake.Progress` | core/rtw_cmd.c:4276-4291 | a run is stuck exactly when the submitter has returned and the command is gone |
| `Handshake.RunsAreFinite` | core/rtw_cmd.c:4276-4291 | no run is longer than the steps both threads have left |
| `Handshake.EveryInterleaving` | core/rtw_chplan.c:3373-3389 | in every interleaving no freed context or command is touched, and a successful handler's response ends with the submitter, which reports success, or is freed once; and exactly when a response would be leaked |
| `Handshake.NeverLeaks` | core/rtw_chplan.c:3328-3333 | with a free function and a handler that leaves a response only on success, no interleaving leaks it |
| `Handshake.PatienceIsRewarded` | core/rtw_cmd.c:4276-4291 | without a timeout a waiting submitter reports success exactly when the command ran and its handler succeeded, and has the response |
| `ApStations.HoldersUpdate` | core/rtw_ap.c:3900-3960 | changing one station's marks changes each count by what changed |
| `ApStations.JoinMeans` | core/rtw_ap.c:3890-4030 | what each of the seven marks is after a join or rejoin; three of the HT marks are never taken back by a join |
| `ApStations.Independent` | core/rtw_ap.c:3661-4157 | a station's marks after a run depend on its own events only |
| `ApStations.ModeLaws` | core/rtw_ap.c:3763-3832 | the new HT operation mode keeps all other bits, forgets the old value of its own, and updating twice is updating once |
| `ApStations.ModeReads` | core/rtw_ap.c:3763-3832 | the protection field as a number and bits 2 and 4, read off the stations |
| `ApStations.EventMeans` | core/rtw_ap.c:3661-4157 | what each event does to a station's marks |
| `ApStations.NewMode` | core/rtw_ap.c:3781-3826 | the three guarded changes compute that mode, and report 0 exactly when nothing changed |
| `ApStations.ErpLaws` | core/rtw_ap.c:3258-3272 | bits 0 and 1 tell the protection, bit 2 the preamble mode, all others are kept |
| `ApStations.ErpIff` | core/rtw_ap.c:3917-3941 | over every run the protection bits equal "some non-ERP station" if and only if they did at the start or the first such station has come or the last one gone since |
| `ApStations.StaleErp` | core/rtw_ap.c:3917-3941 | a beacon that starts with both bits set, and keeps them with no non-ERP station about |
| `ApStations.Link.Put` | core/rtw_ap.c:3886-3908 | set-and-count and clear-and-count keep every counter equal to the number of marked stations |
| `ApStations.Link.PutNonErp` | core/rtw_ap.c:3917-3941 | the octet is rewritten exactly at the crossings between none and some, where testing for a count of one is testing for any |
| `ApStations.Link.HtOperationUpdate` | core/rtw_ap.c:3763-3832 | the mode is read off the stations' marks, olbc_ht and the width capability |
| `ApStations.Link.StaJoin` | core/rtw_ap.c:3865-4062 | marks, counters, octet and mode after a join or rejoin |
| `ApStations.Link.StaLeave` | core/rtw_ap.c:4064-4157 | the same after a leave, which clears all marks |
| `ApStations.Link.LeaveWidth` | core/rtw_ap.c:4117-4127 | a 40 MHz intolerant station never meets a zero counter, so the warning is unreachable |
| `ApStations.Link.CoexReport` | core/rtw_ap.c:3661-3720 | marks and counters after a 20/40 coexistence report; an unknown station changes nothing |
| `ApStations.Link.HandleAll` | core/rtw_ap.c:3661-4157 | every sequence of joins, leaves and reports keeps all counters right, rewrites the octet as the run calls for, and leaves the protection bits right exactly under the condition of ErpIff |
| `StaCmdQueue.NextInv` | core/rtw_ap.c:7330-7653 | every step keeps: objects leave in the order they came, the handler's object is at the head, one token is outstanding exactly when the state is not idle |
| `StaCmdQueue.WorkMeans` | core/rtw_ap.c:7515-7637 | the last event of an object completes it and prepares the next or gives the token back; an earlier one that fails drops it |
| `StaCmdQueue.FinishMeans` | core/rtw_ap.c:7641-7652 | what is to be dropped is freed, the token returned, the state idle |
| `StaCmdQueue.CallbacksMean` | core/rtw_ap.c:7432-7510 | a message finds the head, an abort drops everything in order |
| `StaCmdQueue.EveryRun` | core/rtw_ap.c:7330-7793 | in every interleaving enqueued = completed + dropped + pending, objects are freed in order and once, at most one token is outstanding, no freed object is held |
| `StaCmdQueue.CounterExact` | core/rtw_ap.c:7780-7781 | the 8-bit counter is the queue length if and only if that is below 256 |
| `StaCmdQueue.CounterWraps` | core/rtw_ap.c:7780-7781 | the run of 256 arrivals after which it is zero |
| `StaCmdQueue.StrandedIff` | core/rtw_ap.c:7622-7653 | an object is without a token after a step if and only if a token is refused, or given back with something still queued, or it was before and no arrival is granted one |
| `StaCmdQueue.StrandedByRace` | core/rtw_ap.c:7622-7653 | the run in which an object is enqueued between the two critical sections |
| `StaCmdQueue.NextArrivalHeals` | core/rtw_ap.c:7783-7790 | once an arrival is granted a token, the next completion is that of the object that waited longest |
| `Acl.EveryRun` | core/rtw_ap.c:2656-2868 | over every run addresses are distinct and at most sixteen, and unless an addition met a full list exactly those are listed on which the last word was an addition |
| `Acl.RemoveUndoesAdd` | core/rtw_ap.c:2822-2868 | removal undoes an addition, except that the broadcast address empties the list |
| `Acl.RemoveFromMiddle` | core/rtw_ap.c:2844-2858 | the addresses around a removed one stay in order |
| `Acl.SlotsAreNodes` | core/rtw_ap.c:2789-2806 | there are as many nodes as valid slots, and a free slot whenever there are fewer than sixteen |
| `Acl.Pool.constructor` | core/rtw_ap.c:2656-2682 | the pool starts empty and disabled |
| `Acl.Pool.AddSta` | core/rtw_ap.c:2750-2820 | returns 0 exactly when the address is listed afterwards, -1 exactly when it was not and all slots were taken |
| `Acl.Pool.RemoveSta` | core/rtw_ap.c:2822-2868 | the remaining addresses in order; valid slots, list and count stay in step |
| `Acl.Pool.ClearAll` | core/rtw_ap.c:2684-2720 | the list is empty and the count zero, so its warning is never raised |

## Assumptions

- Allocations succeed, `_rtw_mutex_lock_interruptible` is not interrupted, and the
  regulatory database never gives a channel the DIS flag. Which plans are valid, the
  flags of a channel, the country tables and the 20 MHz channels of a width are
  parameters.
- The per-link records `cisr[iface][link]` are one sequence in the order the nested
  loops visit them; a link update names the range of its slots.
- The build has 2.4 and 5 GHz, CONFIG_80211D and CONFIG_REGD_SRC_FROM_OS, and not
  the 6 GHz band. The Supported Channels encoder skips 6 GHz channels, as it does
  where that band is built in; elsewhere the channel set has none.
- Channel flags, allowed protocols, the HT operation mode and the ERP octet are sets
  of bit numbers. The system clock wraps at 64 bits.
- Dispatcher callbacks are serialised and come only for an outstanding token.

## Left out

- 6 GHz plans and the 6 GHz exclusion list.
- What the OS source does to channel flags, and beacon hints under it; the request list is covered for both sources.
- The contents of the requests while country information is taken from scanned networks and intersected: the list then follows scan results that the model takes as a parameter.
- TX power limits, EDCCA modes, operating-class preferences and the notifications a command triggers.
- Beacon.Template.AddBcnIe: requires that the result fits in the buffer; the guard in the code does not count the two header octets, and what is then written behind the buffer is not modelled.
- ChannelSwitch.Switch.Trigger: requires the same of the finished announcement.
- ChannelSwitch.Switch.WholeSwitch: the same.
- Tim.UpdateBcnTim: the same of the refreshed beacon; update_BCNTIM has no guard.
- InheritanceCodec.UpdateIesWithInheritance: the lists a Non-Inheritance element announces must lie within it; with larger counts the code reads identifiers from the octets behind the element.
- InheritanceCodec.SendAndApply: the encoded difference must fit in 255 octets, because the code returns its length in one octet.
- Tim.RefreshKeepsOthers: for a TIM put at a boundary; a TIM-less beacon not led by the SSID, rates and DS elements gets it in the middle of an element, of which UpdateBcnTim states the octets only.
- Channel-switch requests that originate in the PHL layer, and the cfg80211 path of building them.
- Discarded commands, whose result code is not set on that path.
- The Barker preamble bit as a property of its own: the octet's value is stated in full, and the code refreshes that bit only together with the protection bits.
- The flags a coexistence report sets for a 20 MHz width request and for intolerant channels.
- Station events other than join, leave and coexistence report; the counter resets when a BSS restarts begin a new run.
- The return values of rtw_add_del_sta_cmd_check, which report whether a token was requested rather than whether the object was queued.
- StaCmdQueue.EveryRun: does not claim that a queued object is eventually served; StrandedIff says when it is not.
- Acl.Pool.AddSta: one pool; the check of the period index is left out.
- rtw_ap_bchbw_decision and rtw_chset_sync_bchbw, which rest on helpers outside the core files.
- Beamforming, bridge extension, frame transmission, timers, HAL and PHL calls, debug output: little state of their own, or none that is live.
