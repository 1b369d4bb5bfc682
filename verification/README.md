# LLM Usage Bar: verified model

A Dafny model of the parts of LLM Usage Bar that are easy to get subtly wrong, and proofs
of what they are meant to guarantee. `dafny verify dfyconfig.toml` checks all of it.

Code that changes state in the program is a class or a loop here, proved against a
specification function; code made of expressions is functions. Concurrent parts are also
given as a system of steps, and their properties are proved over every run of that system.
Everything the program asks of the outside world (files, processes, registries, webviews,
SQLite, clocks) enters as an argument, an oracle or a step that may fail.

| module | subject |
|---|---|
| `Text` | string operations of the Rust standard library |
| `PosixShell` | token recognition, quoting, pathname expansion and OR lists of sections 2.2, 2.3, 2.6.6 and 2.9.3 of POSIX.1-2017 XCU, and `set -e` |
| `Quoting` | shell, AppleScript and batch quoting, each against a reader of that language |
| `Installations` | search paths, discovery of installations, the default one, conflicts |
| `ToolCommands` | update, install, anchored and repair commands as plans and as text |
| `AnchoredText` | which anchored and repair commands survive light quoting, and what their text starts |
| `LifecycleScript` | the bash script for a list of tools and what running it does |
| `UpdateRuns` | what updating or installing one tool starts under bash, by the commands themselves |
| `BatchScript` | the batch file for the same tools and what running it does |
| `DebounceGate` | the four-state gate of usage events, with notifiers and workers |
| `HttpClient` | the lazily built global client, with threads at every cell access |
| `SemVer` | version order against section 11 of Semantic Versioning 2.0.0, channel selection |
| `Navigation` | destination slot, drain chain, React queue and acknowledgement slot |
| `McpMigration` | merge of the per-application MCP tables |
| `TrayPolicy` | the two-part native policy with rollback, under concurrent commits |
| `TrayRefresh` | coalescing of tray title updates |
| `ProviderOrder` | comparator and stable sort of the provider menu |
| `RouterApi` | providers, routes, mode and gap marker over whole sequences of calls |
| `Calendar`, `UsageRange` | ECMA-262 civil dates, and usage ranges in a time zone |
| `LocalStorageMigration` | preferences under renamed keys, where any storage call may throw |

## Where the program falls short of its own description

Each of these is proved as an if-and-only-if condition or by a concrete run.

- Batch files notice a failure with `if errorlevel 1`, which misses negative exit codes, and a
  fallback started without `call` takes control for good if it is a batch file; the only one,
  the PowerShell installer of Hermes, is none. The batch file does what the bash script does
  exactly when neither happens to a tool before the last (`BatchScript.BatchRunsToolsInOrder`,
  `BatchScript.BothShellsAgree`, `BatchScript.NegativeCodesAreMissed`,
  `BatchScript.BareFallbackLosesLaterTools`).
- `win_quote_path_for_batch` keeps a path one token at the separators it lists, but cmd also
  separates at `=` and tab (`Quoting.BatchQuotingAgainstCmd`, `Quoting.BatchQuotingCanFail`).
- `quote_path_if_spaced` quotes for a blank only. A path without a blank is read back exactly
  when it has no quote, backslash, dollar sign, backquote, operator, tab or newline, no `#` or
  `~` in front, and as a file pattern matches nothing else. The one other case needs a file
  pattern in the path: a pattern with quotes in it that matches just the file of that name
  (`Quoting.LightQuotingExact`, `Quoting.UnquotedIsMisread`, `Quoting.LightQuotingCanFail`,
  `Quoting.APatternCanFail`, `Quoting.LuckHappens`). A whole anchored or repair command
  without a file pattern is read back exactly when all its paths are, and one with a pattern
  as long as no pattern brings in the name of another word of it
  (`AnchoredText.AnchoredTextExactly`, `AnchoredText.UnquotedPlanIsMisread`,
  `AnchoredText.AnchoredTextCanFail`, `AnchoredText.AStrayNameIsRead`). The end-to-end theorems
  carry this as `GoodRequest`.
- `get_without_redirects` can report that there is no client, exactly while the very first
  installation is between its first two writes (`HttpClient.NoClientExactly`,
  `HttpClient.NoClientHappens`).
- A navigation event emitted to a mounted renderer whose listener is still being registered
  is lost, and its destination stays in the slot (`Navigation.DeliveryBreaksExactly`,
  `Navigation.AnEmissionCanBeLost`).
- A destination is dropped, neither overwritten nor rolled back, exactly when a renderer goes,
  alone or with its window, while it holds the destination, or the left-over drain of one that
  has gone takes it; without that this never happens (`Navigation.OneFate`,
  `Navigation.OnlyOpenersSkip`, `Navigation.WithoutUnmountNothingDrops`,
  `Navigation.AnUntakenDestinationCanDrop`, `Navigation.ATakenDestinationCanDrop`).
- A wait can be acknowledged while its own destination is still waiting, exactly when, as it is
  armed, a frame is on its way or an earlier destination can still be acted on in a view of its
  own (`Navigation.AcknowledgedEarlyExactly`, `Navigation.AnEarlierFrameCanAcknowledge`,
  `Navigation.AnEarlierDestinationCanAcknowledge`).
- A numeric pre-release identifier beyond 64 bits is compared as text, with a wider number and
  with an alphanumeric identifier alike. The order is that of the standard exactly when the
  first identifiers that differ do not mislead in this way, and is reversed when they do
  (`SemVer.OrderIsPrecedence`, `SemVer.WideIdentifiersDeviate`, `SemVer.WideNumberAgainstText`).
- Migration reads the OpenCode table but does not clear it
  (`McpMigration.McpRoot.MigrateMcpToUnified`).
- The comment on `sort_providers` says index, then date, then name. The code takes providers
  with the same index for equal, whatever their dates and names, and so providers without an
  index and with the same date. It compares as documented exactly when neither happens and
  absent values are meant to stand where the code puts them, on which the comment is silent;
  a whole list comes out in that order exactly when such ties stood right in the input
  (`ProviderOrder.ComparesAsDocumentedExactly`, `ProviderOrder.IndexTiesAreLeft`,
  `ProviderOrder.SortedAsDocumentedExactly`).
- In a zone where today's midnight is skipped, the provider activity range can reach into
  tomorrow and the date picker can block the first day of the free window
  (`UsageRange.ActivityCoversItsDates`, `UsageRange.ActivityCanReachTomorrow`,
  `UsageRange.BlockedDaysExactly`, `UsageRange.FirstDayCanBeBlocked`).
- `set_mode` refuses a manual mode for a provider that does not exist, but deleting the
  provider leaves the mode. The mode names a missing provider exactly when that provider has
  been deleted and not added again (`RouterApi.ModeDanglesExactly`,
  `RouterApi.AModeCanDangle`).
- A removal of a preference that throws half way can bring an older value back. A caller can
  rely on the fallback exactly when no key held a value that parses
  (`LocalStorageMigration.RemovalIsSureExactly`,
  `LocalStorageMigration.RemovalPastCurrentIsSureExactly`,
  `LocalStorageMigration.AnOlderValueCanReturn`).

## Model

| member | source | states |
|---|---|---|
| `Quoting.SingleQuoteRoundTrip` | src-tauri/src/cli/mod.rs:2488-2490 | for every value, the single-quoted text is read by the shell as exactly one word with that value |
| `Quoting.LightQuotingExact` | src-tauri/src/cli/mod.rs:1650-1656 | whatever files there are, a lightly quoted path is read as exactly that word if and only if it has a blank, or needs no quoting and as a pattern matches nothing else, or is unquoted text that is just one pattern, which matches just the file of that name |
| `Quoting.UnquotedIsMisread` | src-tauri/src/cli/mod.rs:1650-1656 | so every path that needs quotes and has no blank and no pattern is misread, whatever files there are |
| `Quoting.LightQuotingCanFail` | src-tauri/src/cli/mod.rs:1650-1656 | a path with a quote and no blank is not read at all |
| `Quoting.APatternCanFail` | src-tauri/src/cli/mod.rs:1650-1656 | any path with a pattern fails beside another file that the pattern matches |
| `Quoting.LuckHappens` | src-tauri/src/cli/mod.rs:1650-1656 | the third case is real: any text that ends a pattern with two quotes is read as itself if it matches just the file of that name |
| `Quoting.ApplescriptRoundTrip` | src-tauri/src/cli/mod.rs:2226-2230 | decoding the AppleScript literal gives back every value, with any quotes and backslashes |
| `Quoting.LauncherRoundTrip` | src-tauri/src/cli/mod.rs:2232-2246 | through AppleScript and then the shell, the launchers are exactly the words `sh path` and `exec sh path`, for every path |
| `Quoting.BatchQuotingRoundTrip` | src-tauri/src/cli/mod.rs:1680-1700 | for every path without a double quote, two percent rounds over the quoted form succeed without starting a variable and give the path back, inside its quotes if it was quoted |
| `Quoting.BatchQuotingOneToken` | src-tauri/src/cli/mod.rs:1690-1699 | for any set of separators the final form is one token if and only if the path was quoted or holds none of them |
| `Quoting.BatchQuotingCoversItsOwnList` | src-tauri/src/cli/mod.rs:1692-1694 | at the separators the code names the path always stays one token |
| `Quoting.BatchQuotingAgainstCmd` | src-tauri/src/cli/mod.rs:1692-1694 | at cmd's own separators it does if and only if it was quoted or has no `=` and no tab |
| `Quoting.BatchQuotingCanFail` | src-tauri/src/cli/mod.rs:1692-1694 | a directory with `=` in its name splits the path |
| `Installations.SearchPaths.PushUnique` | src-tauri/src/cli/mod.rs:967-975 | the list gains the path unless it is empty or already there |
| `Installations.SearchPaths.ExtendFromPathList` | src-tauri/src/cli/mod.rs:983-997 | the list is extended by every new non-empty entry in order, without repeats |
| `Installations.EnumerateToolInstallations` | src-tauri/src/cli/mod.rs:1512-1593 | the nested loops and the final sort compute discovery in search order with the default moved first |
| `Installations.DiscoverIsExact` | src-tauri/src/cli/mod.rs:1512-1588 | every real file the candidates reach is found exactly once |
| `Installations.DiscoverInSearchOrder` | src-tauri/src/cli/mod.rs:1512-1588 | each installation is found at the first candidate that leads to its file, and in search order |
| `Installations.DefaultFirstOrder` | src-tauri/src/cli/mod.rs:1590-1592 | the sort permutes the list, keeps files distinct and leaves at most one default, in front |
| `Installations.EnumerationIsExact` | src-tauri/src/cli/mod.rs:1512-1593 | enumerated files are pairwise distinct and exactly those reached; the default is first and the others keep search order |
| `Installations.EntriesSayWhatWasSeen` | src-tauri/src/cli/mod.rs:1536-1584 | every entry is a present candidate with its canonical path, and its version, error and whether it runs are what the probe of that path showed |
| `Installations.DefaultInstallIsExact` | src-tauri/src/cli/mod.rs:2023-2031 | the chosen installation is the PATH default if reached, else the only file, else none; there are as many entries to confirm as files |
| `Installations.ConflictIsADifference` | src-tauri/src/cli/mod.rs:2141-2150 | a conflict is exactly two entries that differ in version or in whether they run |
| `ToolCommands.PlanTextMeans` | src-tauri/src/cli/mod.rs:409-461 | the printed text of a plan is read by the shell as exactly the plan's OR lists |
| `ToolCommands.StaticPlansAreSafe` | src-tauri/src/cli/mod.rs:334-461 | for every tool the fixed update and install commands are plans that print safely |
| `ToolCommands.ParentDirIsDirectory` | src-tauri/src/cli/mod.rs:1617-1622 | without a backslash the textual parent is the directory the path lies in |
| `ToolCommands.AnchoredMeansSameDirectory` | src-tauri/src/cli/mod.rs:1756-1763 | for an absolute path without a backslash an anchored program is absolute and is the path or a file in its directory |
| `ToolCommands.PlansAreAnchored` | src-tauri/src/cli/mod.rs:1828-1940 | for every tool and all paths, each command of an anchored or repair plan, on both sides of `||` and `;`, starts an anchored program or `true` |
| `AnchoredText.AnchoredTextExactly` | src-tauri/src/cli/mod.rs:1895-1940 | for every tool, every absolute path and any files, the shell reads a generated text without a file pattern as its plan if and only if the light quoting carries each path in it and a formula needs none; the same for a text with patterns, as long as absolute patterns match absolute names and none brings in a name that needs quotes and does not read as just that pattern; what the plan starts lies beside the installation, so it does not depend on PATH |
| `AnchoredText.UnquotedPlanIsMisread` | src-tauri/src/cli/mod.rs:1895-1940 | so for every tool, update or repair, a text without a pattern is misread whenever some path in its plan needs quotes and has no blank, whatever files there are |
| `AnchoredText.AStrayNameIsRead` | src-tauri/src/cli/mod.rs:1857-1871 | the condition on names is needed: a formula that needs quotes and is yet read as itself |
| `AnchoredText.AnchoredTextCanFail` | src-tauri/src/cli/mod.rs:1766-1769 | the Hermes command for a path with one quote, no blank and nothing that needs quotes before the quote is not read at all |
| `AnchoredText.PlainPathsAreRead` | src-tauri/src/cli/mod.rs:1828-1940 | plain installation paths are enough for every tool, update or repair |
| `LifecycleScript.BuildToolLifecycleCommand` | src-tauri/src/cli/mod.rs:271-315 | the loop builds the header and each tool's lines in order, or fails for an unsupported tool |
| `LifecycleScript.BashRunsToolsInOrder` | src-tauri/src/cli/mod.rs:271-315 | for every tool list and every pattern of outcomes bash starts exactly the commands up to the first failing tool and succeeds if and only if all tools do |
| `LifecycleScript.GeneratedScriptRunsInOrder` | src-tauri/src/cli/mod.rs:271-315 | the same end to end, for any files, for the script built from any list of supported requests whose lines the shell reads as their plans |
| `LifecycleScript.HeadingIsRead` | src-tauri/src/cli/mod.rs:317-327 | bash reads the heading of each of the six tools as an echo of that tool's own name between the rules |
| `LifecycleScript.FallbackRunsIffPrimaryFails` | src-tauri/src/cli/mod.rs:409-423 | in the bash run of any generated install or update line with a fallback, the fallback runs if and only if the primary failed, and the script succeeds if and only if either does |
| `LifecycleScript.StaticUpdatesFallBack` | src-tauri/src/cli/mod.rs:409-423 | the fixed updates of three tools are such lines, with npm as the fallback |
| `LifecycleScript.RepairAlwaysReinstalls` | src-tauri/src/cli/mod.rs:1828-1846 | the repair always reinstalls after the uninstall, and only the reinstall decides success |
| `UpdateRuns.SourceIsTheFirstMarker` | src-tauri/src/cli/mod.rs:1419-1452 | the source of a path is that of the first of the known directories that occurs anywhere in it, in either case and with either separator |
| `UpdateRuns.SelfUpdateRunsFirst` | src-tauri/src/cli/mod.rs:1916-1940 | in the bash run of an update of Claude, OpenCode or OpenClaw at any absolute path that is no native Claude and no formula, the first command is the installation itself with the tool's own update words, and the volta, bun or npm beside it, if there is one, starts only after that failed |
| `UpdateRuns.OnlyTheOwnUpdateRuns` | src-tauri/src/cli/mod.rs:1916-1927 | Hermes and a natively installed Claude start nothing but their own update |
| `UpdateRuns.OnlyBrewUpgradesAFormula` | src-tauri/src/cli/mod.rs:1857-1866 | for a formula the one command is the `brew upgrade` of that formula by the brew beside the installation |
| `UpdateRuns.OnlyTheManagerUpdates` | src-tauri/src/cli/mod.rs:1857-1893 | for Codex and Gemini the one command is the update of that tool's own package by the volta, bun or npm beside the installation |
| `UpdateRuns.RepairReinstalls` | src-tauri/src/cli/mod.rs:1828-1846 | a chosen Codex that does not run and has an npm beside it is uninstalled and installed again instead, and only the installation decides success |
| `UpdateRuns.FixedUpdateRuns` | src-tauri/src/cli/mod.rs:425-470 | with no installation chosen, or none that can be anchored, the same three tools update themselves by name and fall back to npm with their own package, and the others are installed by npm |
| `UpdateRuns.FixedHermesUpdateRuns` | src-tauri/src/cli/mod.rs:346-347 | Hermes then updates itself by name and falls back to its installer |
| `UpdateRuns.InstallRuns` | src-tauri/src/cli/mod.rs:2086-2104 | Claude and OpenCode are installed by their own installer and, if it fails, by npm; the other npm tools by npm |
| `UpdateRuns.HermesInstallRuns` | src-tauri/src/cli/mod.rs:344-345 | Hermes is installed by its installer alone |
| `UpdateRuns.ConfirmsTwoFiles` | src-tauri/src/cli/mod.rs:2124-2137 | confirmation is asked if and only if the search reaches at least two files |
| `BatchScript.BuildBatchLines` | src-tauri/src/cli/mod.rs:287-308 | the loop builds the echo, action and errorlevel lines of every tool in order |
| `BatchScript.CallLineIsRead` | src-tauri/src/cli/mod.rs:365-423 | a generated line is read as its alternatives with their own words, those after `call` through two rounds of expansion and a bare last one through one; arguments of batch files are split at `,`, `;` and `=`, those of programs are not |
| `BatchScript.HermesLinesAreRead` | src-tauri/src/cli/mod.rs:352-376 | whatever the encoded script, the line that installs Hermes on Windows starts `powershell -NoProfile -ExecutionPolicy Bypass -EncodedCommand` on it, and the one that updates it calls `hermes update` first and then does the same without `call` |
| `BatchScript.PayloadIsSafeExactly` | src-tauri/src/cli/mod.rs:353-361 | the base64 payload is one word to a program, and to a batch file if and only if it has no padding |
| `BatchScript.PayloadRoundTrip` | src-tauri/src/cli/mod.rs:353-361 | decoding the payload as base64 and then as little-endian UTF-16 gives every script back |
| `BatchScript.BatchRunsToolsInOrder` | src-tauri/src/cli/mod.rs:287-308 | the batch file runs the tools in order, stops at the first failure and reports the verdict, if and only if no tool before the last fails with a negative code or ends well after giving control to a bare batch file |
| `BatchScript.BothShellsAgree` | src-tauri/src/cli/mod.rs:271-315 | given the same alternatives, both shells start the same commands with the same verdict under exactly that condition |
| `BatchScript.OrdinaryShellsAgree` | src-tauri/src/cli/mod.rs:271-315 | they agree whenever no program returns a negative code and no batch file is started without `call` |
| `BatchScript.NegativeCodesAreMissed` | src-tauri/src/cli/mod.rs:303-304 | with every program ending in -1 two tools already disagree |
| `BatchScript.BareFallbackLosesLaterTools` | src-tauri/src/cli/mod.rs:372-376 | a fallback without `call` ends the script, and with it the later tools, exactly when its primary failed and it is a batch file; if the primary succeeds the later tools run |
| `DebounceGate.Gate.TryAdmit` | src-tauri/src/usage_events.rs:43-59 | admits exactly from Idle, and records a notification that arrives during an action |
| `DebounceGate.Gate.BeginAction` | src-tauri/src/usage_events.rs:61-68 | enters Running; its assertion holds exactly from Scheduled |
| `DebounceGate.Gate.FinishAction` | src-tauri/src/usage_events.rs:72-92 | asks for one more action exactly when notified meanwhile; its assertion holds exactly in the running states |
| `DebounceGate.RunDebouncedAction` | src-tauri/src/usage_events.rs:168-186 | the worker's loop ends in Idle after one action more than the leading ones that were notified during |
| `DebounceGate.EveryRunIsSafe` | src-tauri/src/usage_events.rs:42-93 | over every interleaving: at most one worker, inside the action exactly in the running states, no failed assertion, nothing unseen exactly in Idle and Running, no more actions than notifications |
| `DebounceGate.QuietRunsSettle` | src-tauri/src/usage_events.rs:159-186 | without notifications the worker takes a bounded number of steps, begins exactly the owed actions and ends in Idle |
| `DebounceGate.AfterTheLastNotification` | src-tauri/src/usage_events.rs:159-186 | after the last notification of any run at most one further action begins before Idle, and none is lost |
| `HttpClient.HttpClients.InstallClients` | src-tauri/src/http_client.rs:247-283 | installs both clients and both records for one URL, or changes nothing when the URL does not build |
| `HttpClient.HttpClients.Configure` | src-tauri/src/http_client.rs:114-146 | a URL that is not blank installs two clients and two records for exactly that URL if it builds and otherwise changes nothing; a blank or absent one installs direct clients |
| `HttpClient.HttpClients.SetSavedProxyUrl` | src-tauri/src/http_client.rs:226-234 | records a URL that is not blank as it is, and a blank or absent one as none, and changes nothing else |
| `HttpClient.HttpClients.Get` | src-tauri/src/http_client.rs:153-196 | returns the global client, building it from the saved URL, or directly if that does not build |
| `HttpClient.LoneGet` | src-tauri/src/http_client.rs:153-196 | the steps of a `get` that runs alone return and install the same |
| `HttpClient.LoneConfigure` | src-tauri/src/http_client.rs:114-146 | and so do the steps of a lone configuration call |
| `HttpClient.LoneSetSaved` | src-tauri/src/http_client.rs:226-234 | and those of a call that saves a URL |
| `HttpClient.StepKeepsInv` | src-tauri/src/http_client.rs:153-283 | every cell access of every thread keeps lock, cells and program points consistent |
| `HttpClient.AgreementWhenFree` | src-tauri/src/http_client.rs:247-283 | over every interleaving, whenever the lock is free both clients and the current-URL record belong to one URL |
| `HttpClient.ClientsReturned` | src-tauri/src/http_client.rs:153-206 | every client `get` returns was the global client at some instant of that call; `get_without_redirects` returns only clients that follow none |
| `HttpClient.FailedBuildChangesNothing` | src-tauri/src/http_client.rs:114-146 | over every interleaving a configuration call fails exactly when its URL is not blank and does not build, and then none of its steps changes a cell |
| `HttpClient.ConfigureInstallsItsUrl` | src-tauri/src/http_client.rs:114-146 | one that ends well leaves, as it lets go of the lock, clients and records for exactly its own URL, or direct ones if that is blank or absent, and its client was the global one during the call |
| `HttpClient.NeverBypassesProxy` | src-tauri/src/http_client.rs:148-234 | once a call has saved a URL that is not blank and builds, no interleaving of gets ever returns a client for anything else |
| `HttpClient.NoClientExactly` | src-tauri/src/http_client.rs:199-206 | `get_without_redirects` finds no client if and only if the first installation is between its first two writes |
| `HttpClient.NoClientHappens` | src-tauri/src/http_client.rs:251-263 | that instant is reachable |
| `SemVer.CompareSemver` | src-tauri/src/cli/version.rs:24-52 | the loops with early returns compute the order of the parsed versions, or nothing if one does not parse |
| `SemVer.CompareVersions` | src-tauri/src/cli/version.rs:28-51 | numbers field by field, then no pre-release above any, then segment by segment, then length |
| `SemVer.OrderIsTotalPreorder` | src-tauri/src/cli/version.rs:24-52 | on parseable strings the order is total, transitive (strictly where a step is strict) and reversed by swapping |
| `SemVer.BuildMetadataIsIgnored` | src-tauri/src/cli/version.rs:5-6 | whatever follows a plus sign changes no comparison, on either side |
| `SemVer.SurroundingBlanksAreIgnored` | src-tauri/src/cli/version.rs:5-6 | neither do blanks around a version |
| `SemVer.ParseRender` | src-tauri/src/cli/version.rs:5-22 | parsing inverts printing for every valid version, and fails exactly when a core field passes 64 bits |
| `SemVer.OrderIsPrecedence` | src-tauri/src/cli/version.rs:24-52 | for all valid versions there is an answer if and only if the core fields fit 64 bits; it is the precedence of section 11 of SemVer 2.0.0, all three ways, if and only if the first pre-release identifiers that differ are not a number beyond 64 bits below a larger one or below text whose own text comes first; otherwise it is reversed |
| `SemVer.FittingIsNeverMisread` | src-tauri/src/cli/version.rs:24-52 | so it is right whenever all numeric identifiers fit 64 bits |
| `SemVer.WideIdentifiersDeviate` | src-tauri/src/cli/version.rs:39-43 | two numbers: 2e19 ranks above 1e20 |
| `SemVer.WideNumberAgainstText` | src-tauri/src/cli/version.rs:39-43 | a number against text: 2e19 ranks above `1a` |
| `SemVer.SameLengthNeverMisleads` | src-tauri/src/cli/version.rs:39-43 | two numbers with equally many digits are always ordered right |
| `SemVer.PickLatestVersion` | src-tauri/src/cli/version.rs:56-79 | `latest` unless the local version is strictly ahead; then the first maximum of `latest` and the comparable allowed candidates |
| `SemVer.PickBest` | src-tauri/src/cli/version.rs:70-78 | the loop keeps the first maximum of the candidates seen so far |
| `SemVer.NeverBelowLatest` | src-tauri/src/cli/version.rs:54-79 | an answer other than `latest` is an allowed candidate strictly above it, and only for a local version ahead |
| `SemVer.TagOrderIsIrrelevant` | src-tauri/src/cli/version.rs:70-78 | the same tags in any order lead to answers of equal precedence |
| `Navigation.DestinationSlot.Install` | src-tauri/src/tray_popover.rs:57-64 | the slot holds the destination under a marker that nobody else has |
| `Navigation.DestinationSlot.Rollback` | src-tauri/src/tray_popover.rs:66-77 | removes the pending destination if and only if it is the attempt's own |
| `Navigation.DestinationSlot.Take` | src-tauri/src/tray_popover.rs:79-81 | empties the slot and returns what was in it |
| `Navigation.AckSlot.Arm` | src-tauri/src/tray_popover.rs:142-148 | a new wait takes the slot over and ends an earlier wait |
| `Navigation.AckSlot.Acknowledge` | src-tauri/src/tray_popover.rs:150-156 | releases the wait in the slot if there is one and leaves the slot empty |
| `Navigation.RendererKeepsLine` | src/hooks/useMainWindowNavigation.ts:31-83 | taking, queueing, rendering and acting move destinations along without reordering them |
| `Navigation.ActedInOrder` | src/hooks/useMainWindowNavigation.ts:31-83 | over every run the destinations acted on are an in-order duplicate-free subsequence of the installed ones; each one passed over was overwritten, rolled back or dropped |
| `Navigation.CallbacksAloneDoNothing` | src/hooks/useMainWindowNavigation.ts:52-83 | with nothing queued, a render for new callbacks alone runs the effect, which leaves everything as it was |
| `Navigation.OneFate` | src-tauri/src/tray_popover.rs:56-82 | a destination ends once, and each of its four ends comes from exactly one kind of step: overwritten, rolled back by its own opener (a stale rollback never removes a newer one), acted on, or dropped by a renderer that goes, alone or with its window, while holding it, or by the left-over drain of one that has gone |
| `Navigation.FailedOpeningLeavesNothing` | src-tauri/src/tray_popover.rs:298-337 | from every reachable state without a window, an opening that cannot show one and is left alone ends with its destination rolled back and the slot empty, and changes nothing else |
| `Navigation.AWindowStartsOver` | src/hooks/useMainWindowNavigation.ts:31-50 | from every reachable state a window that is destroyed, built and mounted again keeps what waits in the slot, asks for it once and has dropped whatever the old one held |
| `Navigation.OnlyOpenersSkip` | src/hooks/useMainWindowNavigation.ts:31-83 | over every run, each skipped destination was overwritten or rolled back by its own opener if and only if no step drops one |
| `Navigation.WithoutUnmountNothingDrops` | src/hooks/useMainWindowNavigation.ts:31-83 | no step does while no renderer unmounts and no window is destroyed |
| `Navigation.AnUntakenDestinationCanDrop` | src/hooks/useMainWindowNavigation.ts:31-50 | a run in which a destination that no mounted renderer had taken is dropped |
| `Navigation.ATakenDestinationCanDrop` | src/hooks/useMainWindowNavigation.ts:31-83 | and one in which a destination is dropped after it was taken |
| `Navigation.DeliveryBreaksExactly` | src-tauri/src/tray_popover.rs:298-337 | what waits in a mounted renderer's slot is still being opened or has an undelivered event or an unfinished drain; a step breaks this if and only if it emits to an unregistered listener with no drain left |
| `Navigation.HeardRunsDeliver` | src-tauri/src/tray_popover.rs:298-337 | every run whose emissions were heard keeps that property |
| `Navigation.QuietMeansDelivered` | src/hooks/useMainWindowNavigation.ts:31-83 | when such a run falls quiet every destination was acted on, overwritten, rolled back or dropped |
| `Navigation.AnEmissionCanBeLost` | src/hooks/useTauriEvent.ts:15-31 | a run in which all is quiet and a destination stays in the slot |
| `Navigation.AcknowledgesOnlyTheLatest` | src-tauri/src/tray_popover.rs:137-156 | only the latest armed wait can be acknowledged; an acknowledgement without a sender leaves no trace and a new wait starts unanswered |
| `Navigation.WaitsEndOnce` | src-tauri/src/tray_popover.rs:137-156 | a wait ends at most once: acknowledged by an acknowledgement, superseded by a later arming, or timed out by its own timer |
| `Navigation.AcknowledgedEarlyExactly` | src-tauri/src/tray_popover.rs:137-156 | for every opening, some run acknowledges its wait while its destination is live if and only if, when the wait is armed, the destination is live and a frame is on its way or an earlier destination can still be acted on in a view of its own: any in the renderer if the destination is in the slot, any queued one if it is in flight, one alone in a due view if it is queued |
| `Navigation.AcknowledgedOnceItsTurnCame` | src-tauri/src/tray_popover.rs:137-156 | so a wait armed with no frame on its way and no earlier destination live is acknowledged only once its own destination was acted on or skipped, however the run goes on |
| `Navigation.AnEarlierFrameCanAcknowledge` | src-tauri/src/tray_popover.rs:137-156 | with a frame on its way the wait can be released while its destination is still in the slot |
| `Navigation.AnEarlierDestinationCanAcknowledge` | src-tauri/src/tray_popover.rs:137-156 | and so can it with an earlier destination queued, though no frame was on its way |
| `McpMigration.McpApps.SetEnabledFor` | src-tauri/src/config/app_config.rs:35-45 | changes the flag of that application only; the two without MCP cannot be enabled |
| `McpMigration.McpApps.EnabledApps` | src-tauri/src/config/app_config.rs:47-66 | lists exactly the enabled applications, each once |
| `McpMigration.McpApps.IsEmpty` | src-tauri/src/config/app_config.rs:68-71 | true exactly when no application is enabled |
| `McpMigration.MergeApp` | src-tauri/src/config/app_config.rs:533-606 | the inner loop, in any visiting order, merges one application's table: each of its ids is on for it unless its entry says `"enabled": false`, and the other ids stay |
| `McpMigration.McpRoot.MigrateMcpToUnified` | src-tauri/src/config/app_config.rs:504-635 | migrates exactly when there is no unified table yet, to the table `MigrationIsTheUnion` describes, and clears three legacy tables and not the fourth; otherwise returns false and changes nothing |
| `McpMigration.MigrationIsTheUnion` | src-tauri/src/config/app_config.rs:514-627 | the table has exactly the union of the ids; each server is word for word what the entry of the first application that knows the id says, with the id as missing name, an empty object as missing server and of `tags` exactly the texts in order; it is on for exactly the applications that know it and do not say `"enabled": false` |
| `McpMigration.EveryEntryIsKept` | src-tauri/src/config/app_config.rs:517-606 | for each of the four applications a flag is off if and only if it does not know the id or its entry says `"enabled": false` |
| `TrayPolicy.TrayPolicy.Commit` | src-tauri/src/tray.rs:541-565 | commits both native halves and the flag, or restores the halves and keeps the flag |
| `TrayPolicy.CommitsAreSerial` | src-tauri/src/tray.rs:541-565 | over every interleaving with calls that fail after any partial change, the state with the lock free is that of whole commits run one after the other, each reporting what it would have there |
| `TrayPolicy.HalvesAndFlagAgree` | src-tauri/src/tray.rs:541-565 | with the lock free the flag is the last committed value, and both halves agree with it after any commit that was accepted or whose restoring calls worked |
| `TrayRefresh.RefreshFlag.Schedule` | src-tauri/src/tray.rs:649-653 | only the caller that raises the flag starts a worker |
| `TrayRefresh.NoRequestIsLost` | src-tauri/src/tray.rs:643-662 | over every interleaving at most one worker sleeps, updates never outnumber requests, and when all workers are done an update began after the last request |
| `ProviderOrder.ComparatorIsTiered` | src-tauri/src/tray.rs:321-336 | indexed before undated before dated, with the index, the name or the date alone deciding inside a tier |
| `ProviderOrder.ComparesAsDocumentedExactly` | src-tauri/src/tray.rs:315-336 | wherever absent values are meant to stand, the comparator is index, then date, then name if and only if it leaves no tie that a later field decides and places no absent value otherwise |
| `ProviderOrder.IndexTiesAreLeft` | src-tauri/src/tray.rs:315-336 | two providers with the same index that it takes for equal although their dates differ |
| `ProviderOrder.SortedAsDocumentedExactly` | src-tauri/src/tray.rs:315-338 | the sorted list is in the documented order if and only if what the comparator takes for equal already stands so in the input |
| `ProviderOrder.ComparatorIsTotalPreorder` | src-tauri/src/tray.rs:321-336 | the comparator is total, transitive and reversed by swapping |
| `ProviderOrder.SortIsStable` | src-tauri/src/tray.rs:316-338 | the result lists every provider once, in the comparator's order, ties as they were |
| `ProviderOrder.StableSortIsUnique` | src-tauri/src/tray.rs:316-338 | no other list is a stable sort of the input |
| `RouterApi.CheckRoutes` | src-tauri/src/api/router.rs:278-288 | the validation loop accepts exactly lists with unique, non-blank names |
| `RouterApi.Api.ReplaceRoutes` | src-tauri/src/api/router.rs:268-303 | replaces all routes of an existing provider with a valid list, or changes nothing |
| `RouterApi.Api.StoreMode` | src-tauri/src/api/router.rs:338-353 | stores `auto` or an existing provider's manual mode, or changes nothing |
| `RouterApi.Api.Upsert` | src-tauri/src/api/router.rs:233-257 | stores a provider whose names, parsed URL (HTTP or HTTPS, a host, no credentials, query or fragment), wire API and authentication are valid, or changes nothing |
| `RouterApi.Api.Delete` | src-tauri/src/api/router.rs:259-262 | removes the provider and its routes and leaves the mode |
| `RouterApi.Api.Enable` | src-tauri/src/api/router.rs:377-399 | succeeds exactly when the router listens on its port, some enabled Responses provider has routes and the pointer is written; then clears the marker |
| `RouterApi.EnablesExactly` | src-tauri/src/api/router.rs:377-399 | after any calls the pointer can be enabled if and only if it can be written, the router listens on the port configured from the start, and the last upsert of some provider asked for `responses` and enabled it and its last accepted list has a route |
| `RouterApi.PortIsRead` | src-tauri/src/api/router.rs:105-113 | a configured number below 65536, with blanks around and a plus sign in front or not, is the port, and a larger one means 8788 |
| `RouterApi.OtherPortIsDefault` | src-tauri/src/api/router.rs:105-113 | any other port than 8788 comes from such a text |
| `RouterApi.Api.ApplyPointerGapMarker` | src-tauri/src/api/router.rs:136-150 | deletes the marker when the pointer is ours, and otherwise records the time unless one is recorded |
| `RouterApi.GetMode` | src-tauri/src/api/router.rs:322-332 | always one of the two legal forms |
| `RouterApi.ModeIsReadExactly` | src-tauri/src/api/router.rs:322-332 | a stored `manual:` with any id behind it is returned as it is, and everything else as `auto` |
| `RouterApi.RoutesAreTheLastAccepted` | src-tauri/src/api/router.rs:259-320 | after any calls, deletions included, a provider's listed routes are the last accepted list since it was last deleted, strictly sorted by name, none blank |
| `RouterApi.StoredIsLastAccepted` | src-tauri/src/api/router.rs:259-303 | rows of a provider change only by its own accepted lists and its deletion |
| `RouterApi.ProviderIsLastInput` | src-tauri/src/api/router.rs:233-262 | after any calls a provider is stored if and only if some accepted upsert of it was not followed by its deletion, enabled and with the wire API as the last such upsert gave them |
| `RouterApi.ModeIsTheLastAccepted` | src-tauri/src/api/router.rs:322-353 | after any calls `get_mode` returns what the last accepted `set_mode` stored |
| `RouterApi.ModeDanglesExactly` | src-tauri/src/api/router.rs:259-353 | over any calls the mode names a missing provider if and only if that provider was deleted and not added again |
| `RouterApi.AModeCanDangle` | src-tauri/src/api/router.rs:259-353 | for every provider, two calls after which it does |
| `RouterApi.MarkerIsFirstOpenGap` | src-tauri/src/api/router.rs:128-150 | after any calls the marker exists if and only if some check saw a gap not closed since, and holds the time of the first such check |
| `Calendar.YearLength` | src/lib/usageRange.ts:10-13 | the closed day count of ECMA-262 gives every year its Gregorian length |
| `Calendar.DateOf` | src/lib/usageRange.ts:10-13 | every day number has a valid civil date with that number |
| `Calendar.DatesAreUnique` | src/lib/usageRange.ts:10-13 | and only one |
| `Calendar.MakeDayWalksBack` | src/lib/usageRange.ts:22-26 | subtracting days with month normalisation is walking back through the calendar day by day |
| `UsageRange.LocalDay` | src/lib/usageRange.ts:10-13 | every instant lies on the local day found for it |
| `UsageRange.ClampIsIdempotent` | src/lib/usageRange.ts:40-54 | clamping twice is clamping once; `1y` becomes `30d`, only a custom start before the window moves, and everything else stays |
| `UsageRange.ClampedStartIsInWindow` | src/lib/usageRange.ts:40-54 | for every selection, instant and zone the resolved start of a clamped selection is not before the free window |
| `UsageRange.ClampedIsIntersection` | src/lib/usageRange.ts:40-54 | for every selection, instant, zone and second: the clamped range contains the second if and only if the selected one does and it is not before the window, which opens 29 days before today |
| `UsageRange.CustomContainsExactly` | src/lib/usageRange.ts:109-119 | a custom range contains exactly the seconds from the chosen start, or else from 86400 seconds before the end of the current one, up to the chosen end, or else up to and including the current one |
| `UsageRange.OneDayContainsExactly` | src/lib/usageRange.ts:97-101 | `1d` is the 86400 seconds up to and including the current one |
| `UsageRange.PresetContainsExactly` | src/lib/usageRange.ts:56-65 | the other presets are the seconds up to the current one from the opening time of today, 0, 6, 13, 29 or 364 days earlier |
| `UsageRange.ActivityContainsExactly` | src/lib/usageRange.ts:67-79 | the activity range is the seconds from that time 364 days ago up to that time tomorrow |
| `UsageRange.BlockedDaysExactly` | src/lib/usageRange.ts:29-33 | exactly which days the picker blocks |
| `UsageRange.FirstDayCanBeBlocked` | src/lib/usageRange.ts:29-33 | a zone and an instant for which it blocks the first day of the free window |
| `UsageRange.PresetCoversItsDates` | src/lib/usageRange.ts:81-106 | the presets touch exactly the last 1, 7, 14, 30 and 365 local dates and contain the current second |
| `UsageRange.PresetStartsOnItsDate` | src/lib/usageRange.ts:56-65 | its first date is n - 1 calendar steps before today |
| `UsageRange.ActivityCoversItsDates` | src/lib/usageRange.ts:67-79 | the activity range touches exactly the last 365 dates, and tomorrow too if and only if today began later on the clock than tomorrow will |
| `UsageRange.ActivityCanReachTomorrow` | src/lib/usageRange.ts:73-78 | a zone and an instant for which it does |
| `LocalStorageMigration.Storage.ReadMigrated` | src/lib/localStorageMigration.ts:37-73 | for every pattern of throws: the fallback if asking throws before a value that parses is found or none is; else that value, moved from its legacy key to the current one as far as the two calls work, and gone from its own when both do |
| `LocalStorageMigration.ReadThenRead` | src/lib/localStorageMigration.ts:46-68 | unless asking throws, the value is the first that parses, and the next read finds the same |
| `LocalStorageMigration.Storage.WriteMigrated` | src/lib/localStorageMigration.ts:75-91 | the exact storage for each call that can be the first to throw; when none does, the value stands under the current key and no legacy key is left |
| `LocalStorageMigration.Storage.RemoveMigrated` | src/lib/localStorageMigration.ts:93-108 | the same for a removal; when no call throws, no key is left |
| `LocalStorageMigration.FirstValidIsFirst` | src/lib/localStorageMigration.ts:46-68 | the value read is the one of the first key, current before legacy in order, that parses; the fallback only if none does |
| `LocalStorageMigration.WriteThenRead` | src/lib/localStorageMigration.ts:75-91 | a stored value that parses is read back whatever removals threw |
| `LocalStorageMigration.RemovedIsGoneExactly` | src/lib/localStorageMigration.ts:93-108 | after a partial removal a read falls back if and only if no remaining key holds a value that parses |
| `LocalStorageMigration.RemovalIsSureExactly` | src/lib/localStorageMigration.ts:93-108 | for the caller: after a removal a read is sure to fall back, whatever throws, if and only if no key held a value that parses |
| `LocalStorageMigration.RemovalPastCurrentIsSureExactly` | src/lib/localStorageMigration.ts:93-108 | once the current key is gone it is, if and only if no legacy key held one |
| `LocalStorageMigration.AnOlderValueCanReturn` | src/lib/localStorageMigration.ts:93-108 | a storage in which a removal that throws half way brings back the older theme |
| `LocalStorageMigration.CurrentIsNeverLegacy` | src/lib/localStorageMigration.ts:1-22 | no current key is a legacy key, which the results above need |
| `LocalStorageMigration.KeysAreApart` | src/lib/localStorageMigration.ts:1-22 | no two preferences share a key, current or legacy |
| `LocalStorageMigration.OthersReadTheSame` | src/lib/localStorageMigration.ts:1-108 | so whatever a read, write or removal of one preference does, every other reads as before |

## Left out

- The Windows generator of anchored commands and its `.exe`/`.cmd` probing, what the PowerShell installer of Hermes does, and the WSL branch of the action line: the batch model takes the per-tool alternatives as given, but for the lines of Hermes.
- Running commands, probing files, `--version` output, registry requests and environment variables are inputs or oracles.
- Batch lines are a list; joining them with CRLF is not modelled. Carets inside `call`, code pages, the terminal AppleScripts around the quoted command and the other terminal launchers are not modelled.
- `PosixShell` reads words, quotes, file patterns, `;`, `||` and line ends; text with any other operator or expansion does not lex, so the theorems say such text is never generated. What a pattern matches is an argument and does not change during a run. The brace expansion of bash and reserved words are not read.
- The order in which search directories are collected from the environment (`build_tool_search_paths`): the list of directories is an input.
- Lock poisoning, the last-resort `Client::default()`, URL validation and the loopback checks of the HTTP client; building a client is a function of its URL.
- Waiting times, the debounce delay and the three separate gates: one gate is modelled and the others are copies of it.
- `extract_version` and fetching dist-tags; versions are compared as given.
- React rendering beyond the order of updates, renders and effects: a render applies all queued updates, as React does for updates of one priority. A `take` command that fails, the payloads of destinations, and what the two callbacks do are not modelled. The window check and the arming of the wait are one step. Which of the commands already sent survive a destroyed window is left open.
- `calculate_popover_position` and click classification: one expression each.
- Conflict messages of the MCP migration, which are only logged, and the parsing of the configuration file.
- Tier labels, emoji and usage suffixes of the tray menu.
- `SortProviders` and `ListModelRoutes` stand for the library's stable sort and for `ORDER BY`; they are functions on values, so sorting in place is not captured.
- `McpApps` is a value inside the server table, so its setter returns a new value instead of changing the old one.
- The router's read-only queries, and priorities, stored URLs and credentials of providers. Table writes are atomic, deleting a provider cascades to its routes and does not fail, an upsert leaves routes alone, and settings reads do not fail. Parsing a URL is the library's; its parts are checked as the source does.
- `IsZone`: local days last 23 to 25 hours, begin on whole seconds, and setting a date to a day's opening wall time stays on the day. Days are whole intervals between midnights, so zones whose clock change straddles midnight are excluded, both where midnight resolves after the first instant of the day and where the clock goes back just after midnight and repeats a part of the previous date.
- A missing `localStorage` and a `parse` that throws: each returns the fallback at once. No parser that the program passes throws.
