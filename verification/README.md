# Verified models of the Astra deployment tools

This project models the release and deployment tools of the Astra repository in Dafny and proves what they promise. The
largest part is the Nginx configurator; seven smaller parts model the other tools that guard a release. Run
`dafny verify dfyconfig.toml` to check everything.

## The parts

**Nginx configurator** (`scripts/configure_production_nginx.py`), modules `Nginx*`. A text is read by a character machine
(`NginxLexer`, `NginxTokens`) and a brace-stack parser (`NginxParser`). Every text that parses is the rendering of
exactly one *document*, a list of statements with the whitespace and comments in front of each (`NginxDocument`,
`NginxDissection`, `NginxUnique`).
Each piece of text surgery is specified on the text with the offsets that the parser gives, and proved equal to an operation
on documents: removing directives (`NginxRemoval`), inserting lines behind server braces (`NginxInsertion`, `NginxServers`),
pointing the upstream elsewhere (`NginxUpstream`), installing headers (`NginxHeaders`). What a text *means*
(`NginxMeaning.Meaning`) is its list of statements without layout: words, terminator, name, block chain, block number.
`NginxShapes`, `NginxScopes`, `NginxPlaces`, `NginxSafe`, `NginxFrame`, `NginxVerdicts` and `NginxKept` say what
tokens, statements, places of edits, safe sites, cutovers, maintenance and kept lines are in literal words, apart from
the definitions that the procedures are proved against.
`NginxCutover` and `NginxFencing` hold the results about arbitrary texts; `NginxConfigurator` holds the procedures that
splice highest offset first.

The steps from a text `t` to the result of a cutover to port `p` are: drop maintenance blocks, parse, refuse includes,
replace the upstream, install the client-IP headers, drop all access logs, give every server one safe access log, audit.

**Break-glass ledger** (`scripts/consume_break_glass_approval.py`), modules `Ledger*`. Any number of consumers of one nonce
interleave their file-system calls, every call may fail, and the system may crash at any point. A crash leaves each
unsynced file with arbitrary content and each directory entry with its present value or any value it had since the last
directory fsync.

**Release cleanup** (`scripts/cleanup_astra_production_artifacts.py`), modules `Cleanup*` and `SortedNames`;
`CleanupMeaning` states it in literal words.
**Ruff diff gate** (`scripts/ruff_diff_gate.py`), modules `Ruff*`.
**Run fingerprint** (`backend/scripts/audit_creative_benchmark_run.py`), modules `RunFingerprint` and
`FingerprintMeaning`.
**Release-smoke principals** (`backend/scripts/manage_production_smoke_principals.py`), modules `Principal*`.
**OIDC emulator** (`backend/scripts/local_oidc_emulator.py`), modules `Oidc*`.
**Worker health** (`backend/app/main.py`), module `WorkerHealth`.

`Options` and `PythonText` are shared: a value that may be missing, and Python's whitespace, stripping and lower-casing.

## Properties that fail, and exactly when they hold

- *Running `configure_site` again with the same ports returns the same text.* It fails even when the first result holds
  no marker text: `NginxUnsteady.RepeatChangesText` gives a site with two servers opened on one line, where putting the
  log line behind the first brace changes what stands in front of the second brace, so the second run indents the second
  log line differently. `NginxCutover.CutoverTwice` says exactly when the text stays: no line of the result is a begin
  marker, and every server already has its log line where the next run would put it (`NginxSteady.Steady`). On the
  original text this is `NginxEven.Even` (`NginxEven.CutoverSteady`, `NginxEven.CutoverForgets`): every server's brace
  stands on a line with the same margin whether or not the braces before it end their lines. `NginxCutover.UsualLayout`
  shows that this always holds when every server's brace ends its line in the original, and `NginxCutover.CutoverThrice`
  that a third run changes nothing more.
- *A cutover to the other port and back gives the text of the cutover back.* It fails on the same site
  (`NginxUnsteady.RollbackChangesText`), under exactly the same condition (`NginxCutover.CutoverRollback`); what the text means
  always comes back.
- *Turning maintenance on twice is turning it on once.* It fails on the same site (`NginxUnsteady.MaintenanceChangesText`) and
  holds exactly on steady sites (`NginxFencing.MaintenanceTwice`), which are the even ones (`NginxEven.MaintenanceForgets`).
- *A cutover of a result of a cutover succeeds.* It fails when removing an inline access log turns the comment behind it into a
  begin-marker line (`NginxMarked.CutoverLeavesMarker`), and holds exactly when no line of the result is a begin marker
  (`NginxCutover.CutoverAgain`).
- *Maintenance can be turned on for every site that a cutover accepts.* It fails for the same text
  (`NginxMarked.MarkedIsNotCovered`), and holds exactly when the site holds no begin-marker text but in directives that a
  cutover drops and no server returns 503 directly (`NginxFencing.MaintenanceOn`, `NginxFencing.MaintenanceSucceeds`).
- *The final name of a nonce is linked at most once.* It fails when a crash undoes a link that was not yet durable
  (`LedgerLinks.LinkedTwice`), and holds exactly when no crash of the run undoes one (`LedgerLinks.LinksOnce`). At most one
  consumer returns in any case (`LedgerSafety.ReturnsOnce`).
- *A published record stays for ever.* It holds exactly for a record that the directory fsync has seen
  (`LedgerLinks.ForeverIsPermanent`); every other one some crash takes away (`LedgerLinks.CrashMayDrop`).
- *Only an unhealthy worker is terminated.* An ordinary background task that raises schedules a termination and leaves the
  worker as healthy as it was (`WorkerHealth.OrdinaryCrash`, `WorkerHealth.HealthyButTerminating`).

## Model

| member | source | states |
|---|---|---|
| NginxLexer.Tokenize | scripts/configure_production_nginx.py:114-170 | the index loop returns exactly the tokens of the character machine for every text, always advances, and its raise on unsupported syntax is unreachable |
| NginxTokens.TokensAreSlices | scripts/configure_production_nginx.py:114-170 | for every text that the tokenizer accepts, an unquoted word at its end included: tokens are slices of the text, in order and disjoint, and each token's value is the text between its offsets |
| NginxTokens.SilentBetweenTokens | scripts/configure_production_nginx.py:121-128 | for every text that the tokenizer accepts, every character outside the tokens is whitespace, a hash from which a comment begins, or stands in a comment |
| NginxTokens.CommentsReach | scripts/configure_production_nginx.py:124-128 | a comment reaches from the `#` that opens it to the end of its line |
| NginxShapes.TokenShapes | scripts/configure_production_nginx.py:129-169 | every token of an accepted text is one of the three marks, a text between two equal quotes that ends at the first later one no backslash escapes, or a word that starts with no quote, hash, mark or whitespace and reaches to the first unescaped whitespace, mark or hash or to the end of the text; in literal characters, with the 29 whitespace characters listed |
| NginxShapes.TokensFail | scripts/configure_production_nginx.py:132-150 | a text has no tokens exactly when a quote in it, at a place where no token is open, has no later unescaped twin, and the error is then the one for that |
| NginxLexer.SpliceTokens | scripts/configure_production_nginx.py:114-170 | tokenizing a concatenation at a point between tokens gives the tokens of the first text followed by those of the second, shifted by the first one's length |
| NginxTokens.TokensOfPrefix | scripts/configure_production_nginx.py:114-170 | cutting a text in front of any of its tokens gives the tokens before it, and cutting it behind the token gives those and the token |
| NginxParser.ParseText | scripts/configure_production_nginx.py:173-234 | the token loop with its block stack returns, for every text, the blocks and directives of the statement list, or the same error |
| NginxDocument.ParseDocument | scripts/configure_production_nginx.py:173-234 | a well-formed document's text parses to exactly its statements, with their names, block chains and numbers |
| NginxDissection.DissectText | scripts/configure_production_nginx.py:114-234 | every text that parses is the rendering of a well-formed document |
| NginxUnique.DocumentsDiffer | scripts/configure_production_nginx.py:114-234 | two well-formed documents have the same text only if they are the same document |
| NginxScopes.ParsesGrammar | scripts/configure_production_nginx.py:173-234 | a text parses to a list of statements exactly when its tokens are those statements, in order, and each stands in its place by literal rules (plain names outside map bodies, data rows and no include in any case or quoting inside them, maps only at top level, in http or in stream, no blocks in maps, every brace matched), followed by tokens that are none of the three security-relevant words |
| NginxScopes.RowsAreData | scripts/configure_production_nginx.py:89-111 | the directives of a text are its terminated statements, under their own first word or, directly inside a block opened by the word map, as a data row whatever the first word is |
| NginxScopes.BlocksAreOpeners | scripts/configure_production_nginx.py:193-213 | the blocks of a text are its statements that end in an opening brace, under their own first word and numbered from one in their order |
| NginxScopes.ParseFails | scripts/configure_production_nginx.py:75-220 | a text whose tokens begin with statements in their places and go on with words and a mark that make none there fails for exactly the reason that the words, the mark and the enclosing blocks give, whatever follows |
| NginxScopes.ParseEnds | scripts/configure_production_nginx.py:222-229 | a text that ends in an open block fails for that, and else for words that hold one of the three security-relevant ones |
| NginxScopes.ChainsAreEnclosing | scripts/configure_production_nginx.py:177-218 | in every text that parses, the block chain of a statement is the outermost-first list of the blocks whose brace depth is not left between their opener and the statement |
| NginxRemoval.SpansAscend | scripts/configure_production_nginx.py:430-440 | the removal spans of a selection of directives are pairwise disjoint and in text order, whole-line spans included |
| NginxConfigurator.SpansOfText | scripts/configure_production_nginx.py:492-498 | the same for every text that parses and every selection rule |
| NginxConfigurator.SpanSwallowsBlanks | scripts/configure_production_nginx.py:430-440 | besides its directive a removal span holds only whitespace |
| NginxPlaces.RemovalIs | scripts/configure_production_nginx.py:430-440 | a directive goes with its whole lines, the newline included, exactly when only whitespace stands beside it on them, and else alone; by offsets of newlines |
| NginxConfigurator.DeleteSpans | scripts/configure_production_nginx.py:492-498 | deleting the spans one by one, highest offset first, is deleting them all at once |
| NginxRemoval.ExciseIsCut | scripts/configure_production_nginx.py:430-440 | deleting the spans from a text leaves the text of the document without those statements, with exactly the blanks that stay |
| NginxMeaning.CutMeaning | scripts/configure_production_nginx.py:430-440 | removing directives keeps the document well formed and takes exactly their statements out of its meaning |
| NginxConfigurator.PointsOfText | scripts/configure_production_nginx.py:627-632 | in every text that parses, the insertion offsets of distinct servers are distinct and in the order of the servers, for log lines and for fences |
| NginxConfigurator.MakeInsertions | scripts/configure_production_nginx.py:630-632 | inserting one by one, highest offset first, is inserting everything at the offsets of the original text |
| NginxServers.PointIsAdded | scripts/configure_production_nginx.py:417-427 | the insertion point of a server is on the next line when the rest of the brace's line is blank or a comment, else right behind the brace, with four blanks more than the margin of the brace's line |
| NginxPlaces.LogPlaceIs | scripts/configure_production_nginx.py:417-427 | the offset and the exact text of an inserted log line: on the next line when the rest of the brace's line is blank or a comment and the text goes on, else right behind the brace on a line of its own; with the blanks and tabs of the brace's line and four blanks |
| NginxServers.InsertLogsIsAddLines | scripts/configure_production_nginx.py:623-632 | inserting at all servers of a text gives the text of the document with one log line first in every server |
| NginxServers.AddLinesMeaning | scripts/configure_production_nginx.py:623-632 | adding lines keeps the document well formed and adds exactly their statements, first in each server block and with its chain |
| NginxUpstream.SwapIsReroute | scripts/configure_production_nginx.py:605-607 | replacing the argument of the only old upstream gives the text of the document that points at the other port and differs in nothing else |
| NginxHeaders.InsertIsAddHeaders | scripts/configure_production_nginx.py:461-478 | inserting before the proxy gives the text of the document with the two canonical headers, each on its own line, before the proxy and in its scope, in both layout branches |
| NginxPlaces.HeaderPlaceIs | scripts/configure_production_nginx.py:461-478 | the exact text of the two headers before the proxy, with the text in front of the proxy as their margin when it is blank, else on new lines four blanks further in than its line |
| NginxRewrite.InstallIsDoc | scripts/configure_production_nginx.py:481-501 | installing headers in a text is clearing and adding them in its document |
| NginxConfigurator.InstallClientIpProxyHeaders | scripts/configure_production_nginx.py:481-501 | the procedure computes the specified result or error for every text |
| NginxAudit.AuditOfDocument | scripts/configure_production_nginx.py:265-346 | the audit depends only on the meaning of a text and on the raw text of its own log formats |
| NginxConfigurator.AuditParsedConfig | scripts/configure_production_nginx.py:265-346 | the server loop with its counter and the proxy loop compute the specified verdict, with the first error met |
| NginxSafe.AuditAccepts | scripts/configure_production_nginx.py:237-346 | the audit accepts a configuration if and only if no directive is an include, some block is a server, every access log anywhere inside a server has exactly the two safe arguments and exactly one is its own, every proxy to one of the two Astra ports has each client-IP header exactly once in its own chain with the remote address as value, and there is at most one own format, without braced variables and with exactly the seven safe variables; the answer is then the number of servers, twice |
| NginxSafe.AuditFaults | scripts/configure_production_nginx.py:265-346 | what the audit raises: for includes, then for no server, then for the logs of the servers, then for headers, then for formats |
| NginxGuarantees.RewritePasses | scripts/configure_production_nginx.py:621-643 | on the rewritten statements the audit answers the number of servers twice unless the site's own log formats are rejected |
| NginxRewrite.RewriteIsDoc | scripts/configure_production_nginx.py:582-643 | for every well-formed document: each error and the order of errors, and on success the text of the rewritten document |
| NginxCutover.CutoverMeaning | scripts/configure_production_nginx.py:582-643 | for every text: the cutover fails exactly with the error of the marker scan or of `Verdict` (parse error, include, upstream count, no server, own log format), never for access logs or client-IP headers; on success the result means the original with one upstream argument replaced, the scope's client-IP headers replaced by the canonical two just before the proxy, all access logs dropped and one safe log first in each server; every other statement keeps its words, name, order and chain |
| NginxVerdicts.CutoverAccepts | scripts/configure_production_nginx.py:582-643 | a cutover succeeds if and only if the maintenance blocks can be removed and the kept text parses to a configuration without includes, with exactly one Astra proxy, some server and only safe own formats; it reports the number of server blocks |
| NginxVerdicts.CutoverFaults | scripts/configure_production_nginx.py:582-643 | why a cutover fails: the first of a marker fault, a parse fault, an include, another number of Astra proxies than one, no server, and an unsafe own format |
| NginxFrame.CutoverIsOnePass | scripts/configure_production_nginx.py:481-643 | what a successful cutover makes of the statements, in one pass with literal words and the scope of the only Astra proxy: access logs and the client-IP headers of the scope go, the two headers and the proxy with the new address stand where the proxy stood, each server is followed by the safe log, and every other statement stays |
| NginxFrame.CutoverFrame | scripts/configure_production_nginx.py:481-619 | after every successful cutover the statements that are neither access logs nor client-IP headers of the scope are the same, in order, but for the one argument of the proxy |
| NginxVerdicts.ActivePortIs | scripts/configure_production_nginx.py:395-414 | the active port is p exactly when the text parses, there is one Astra proxy, and it points at p |
| NginxCutover.CutoverActivates | scripts/configure_production_nginx.py:395-414 | after a cutover the active upstream port is the one asked for |
| NginxCutover.CutoverAgain | scripts/configure_production_nginx.py:582-643 | a cutover of a result succeeds exactly when no line of it is a begin marker, and is then the second rewrite of the original |
| NginxCutover.CutoverTwice | scripts/configure_production_nginx.py:582-643 | repeating a cutover returns the same text and count if and only if no line is a begin marker and every log line already stands where it would be put |
| NginxCutover.CutoverThrice | scripts/configure_production_nginx.py:582-643 | from the second result on, repeating returns the same text if and only if no line is a begin marker |
| NginxCutover.CutoverRollback | scripts/configure_production_nginx.py:594-619 | a cutover to b and back to a always means what the cutover to a means, and is the same text if and only if no line of the first result is a begin marker and it is steady |
| NginxCutover.UsualLayout | scripts/configure_production_nginx.py:417-427 | when every server's brace ends its line in the original, one cutover makes the text steady |
| NginxEven.CutoverSteady | scripts/configure_production_nginx.py:417-427 | the result of a cutover is steady if and only if the original site is even: with its headers in place and without access logs, every server's brace stands on a line with the same margin whether or not the braces before it end their lines |
| NginxEven.CutoverForgets | scripts/configure_production_nginx.py:594-643 | for a kept text without begin-marker text and any two ports: a cutover of the result of a cutover succeeds, and is the later cutover alone if and only if the original site is even |
| NginxEven.MaintenanceForgets | scripts/configure_production_nginx.py:563-579 | turning maintenance on twice is turning it on once if and only if the original site is even |
| NginxCutover.CutoverLayout | scripts/configure_production_nginx.py:417-427 | after a cutover every server's brace ends its line, so a fence always goes to the next line |
| NginxCutover.PortsAccepted | scripts/configure_production_nginx.py:585-588 | only the two production ports are accepted, and only different ones |
| NginxUnsteady.RepeatChangesText | scripts/configure_production_nginx.py:417-427 | a concrete site on which repeating a cutover succeeds and changes the text |
| NginxUnsteady.RollbackChangesText | scripts/configure_production_nginx.py:594-619 | the same site: a cutover to one port and then to the other differs from the second alone |
| NginxUnsteady.MaintenanceChangesText | scripts/configure_production_nginx.py:563-579 | the same site: turning maintenance on twice succeeds and differs from turning it on once |
| NginxMarked.CutoverLeavesMarker | scripts/configure_production_nginx.py:430-440 | a concrete site whose cutover succeeds and leaves a begin-marker line, so that every later cutover raises |
| NginxMarked.MarkedIsNotCovered | scripts/configure_production_nginx.py:541-579 | the same site: `configure_maintenance` raises because the fences do not cover it |
| NginxConfigurator.ConfigureSiteText | scripts/configure_production_nginx.py:582-643 | the procedure computes the specified result or error for every text and all port arguments |
| NginxConfigurator.FinishText | scripts/configure_production_nginx.py:613-643 | the second half of the procedure computes the specified result or error |
| NginxSteady.SteadyIsStable | scripts/configure_production_nginx.py:613-643 | a second rewrite changes no document exactly when the first result is steady |
| NginxSteady.ThirdRewrite | scripts/configure_production_nginx.py:613-643 | from the second rewrite on nothing changes |
| NginxSteady.HeadersSettle | scripts/configure_production_nginx.py:461-501 | clearing and installing the headers of a rewritten document gives it back unchanged, in both layout branches |
| NginxStability.CutAddedLogs | scripts/configure_production_nginx.py:430-440 | removing the log lines just added gives the document back, with a line break behind each server brace |
| NginxRollback.FinishedRouted | scripts/configure_production_nginx.py:594-643 | replacing the upstream before or after all other steps gives the same document |
| NginxClean.RewriteMarks | scripts/configure_production_nginx.py:582-643 | the rewritten text holds marker text if and only if the original does outside the directives that the rewrite drops |
| NginxClean.RewriteFree | scripts/configure_production_nginx.py:582-643 | the rewrite puts no marker text into a text that has none |
| NginxMarkers.RemoveMaintenanceBlocks | scripts/configure_production_nginx.py:504-530 | the line loop computes the specified kept text or error |
| NginxKept.RemovalMeans | scripts/configure_production_nginx.py:504-530 | maintenance blocks can be removed exactly when the lines that are a marker but for surrounding whitespace pair up, none nested, and no end marker stands elsewhere; what stays is exactly the lines outside the blocks |
| NginxKept.LinesAre | scripts/configure_production_nginx.py:507 | the lines of a text join to it, and each ends at its first line break, of the ten that Python knows, a newline behind a carriage return included |
| NginxKept.MarkersCounted | scripts/configure_production_nginx.py:528-548 | the counts of both markers are the numbers of places at which the text holds them |
| NginxFence.RemovedHasNoEnd | scripts/configure_production_nginx.py:504-530 | the kept text holds no end-marker text anywhere |
| NginxFence.RemoveIdle | scripts/configure_production_nginx.py:504-530 | a text without end-marker text is kept whole exactly when no line of it is a begin marker, else the scan raises |
| NginxRemainder.RemovedTwice | scripts/configure_production_nginx.py:504-530 | removing maintenance blocks a second time changes nothing, even where removal joins a carriage return and a newline |
| NginxMaintenance.FencePoints | scripts/configure_production_nginx.py:533-538 | behind braces that end their lines the fences go to the start of the next line with the log line's indent |
| NginxFenced.FencedText | scripts/configure_production_nginx.py:504-538 | fencing adds one begin and one end marker for each server, and removing the fences gives exactly the site back |
| NginxCovering.FencedEnabled | scripts/configure_production_nginx.py:541-560 | a fenced site counts as covered exactly when it has servers, no begin-marker text and no direct `return 503` before |
| NginxConfigurator.CheckMaintenance | scripts/configure_production_nginx.py:541-560 | the loop over servers with its early returns computes the specified answer |
| NginxVerdicts.EnabledMeans | scripts/configure_production_nginx.py:541-560 | the status check answers for every text that parses, and says yes exactly when some block is a server, both markers occur as often as there are servers, and every server has exactly one return of its own with the one argument 503 |
| NginxFencing.MaintenanceOn | scripts/configure_production_nginx.py:563-579 | for every text: turning maintenance on fails exactly with the error of the marker scan, of the search for the active port, or of the cutover to that port, or when the site itself holds begin-marker text outside the directives that a cutover drops or a server that returns 503 directly; else every server is covered, the meaning gains exactly the fence's three statements first in each server, and removing the blocks gives exactly the rewritten site back |
| NginxFencing.MaintenanceSucceeds | scripts/configure_production_nginx.py:563-579 | when the kept text holds no begin-marker text: maintenance can be turned on if and only if the cutover to the active port succeeds and no server of the kept text returns 503 directly |
| NginxVerdicts.MaintenanceAccepts | scripts/configure_production_nginx.py:563-579 | for a kept text without begin-marker text: maintenance can be turned on if and only if the text parses, a cutover accepts it, and no directive of a server is its own return 503 |
| NginxVerdicts.MaintenanceIsFence | scripts/configure_production_nginx.py:533-579 | turning maintenance on adds behind the brace of every server exactly the retry header, the cache header and the return 503, in these words, to the statements of the site as cut over |
| NginxCovering.RewriteReturns | scripts/configure_production_nginx.py:541-560 | a cutover keeps which servers return 503 directly |
| NginxFencing.CutoverLiftsFence | scripts/configure_production_nginx.py:582-590 | a cutover of a fenced text succeeds, is the cutover of the site inside, and leaves maintenance off |
| NginxFencing.CutoverIsOpen | scripts/configure_production_nginx.py:541-560 | after any cutover maintenance is off |
| NginxFencing.MaintenanceAgain | scripts/configure_production_nginx.py:563-579 | turning maintenance on again always succeeds, on the second rewrite of the same site and for the same port |
| NginxFencing.MaintenanceTwice | scripts/configure_production_nginx.py:563-579 | turning maintenance on twice is turning it on once if and only if the site is steady |
| NginxFencing.MaintenanceThrice | scripts/configure_production_nginx.py:563-579 | from the second time on, turning maintenance on changes nothing |
| NginxConfigurator.ConfigureMaintenanceText | scripts/configure_production_nginx.py:563-579 | the procedure computes the specified result or error for every text |
| NginxConfigurator.ActiveUpstreamPort | scripts/configure_production_nginx.py:395-414 | the loop that collects ports computes the specified port or error |
| LedgerSafety.StepKeeps | scripts/consume_break_glass_approval.py:135-189 | every step of every consumer, every failing call, and every crash keeps the ledger valid: temporary files belong to their creators, the record is complete and synced, nobody has returned without a permanent record |
| LedgerSafety.RunKeeps | scripts/consume_break_glass_approval.py:135-189 | every interleaving of any number of consumers, faults and crashes keeps the ledger valid |
| LedgerSafety.RecordComplete | scripts/consume_break_glass_approval.py:150-175 | from an empty ledger, after any run, the final name holds one consumer's whole encoded record or nothing, whatever the sizes of the short writes |
| LedgerSafety.RecordForever | scripts/consume_break_glass_approval.py:160-175 | a published record never changes again: without crashes always, and once it is durable also through crashes |
| LedgerLinks.LinksBalance | scripts/consume_break_glass_approval.py:164-173 | over every run with any crashes, the links made and the link there before are the links undone by crashes and the link there after |
| LedgerLinks.LinksOnce | scripts/consume_break_glass_approval.py:164-173 | from an empty ledger, no crash of a run has undone a link if and only if the run has at most one link in all, however it goes on without further crashes |
| LedgerLinks.LinkedTwice | scripts/consume_break_glass_approval.py:164-173 | a concrete run with one crash in which the final name is linked twice, by two consumers |
| LedgerLinks.PermanentLinksNothing | scripts/consume_break_glass_approval.py:164-173 | once the record is durable no crash undoes it and nothing is linked again |
| LedgerLinks.CrashMayDrop | scripts/consume_break_glass_approval.py:164-173 | some crash takes the record away if and only if the directory fsync has not seen its link |
| LedgerLinks.CrashMayLeave | scripts/consume_break_glass_approval.py:150-189 | what a crash leaves: any content exactly in files that are not synced, and under each name exactly its present value or one it had since the last directory fsync |
| LedgerLinks.ForeverIsPermanent | scripts/consume_break_glass_approval.py:164-173 | a record is the same after every run if and only if it is durable |
| LedgerSafety.ReturnsOnce | scripts/consume_break_glass_approval.py:135-189 | over any run, crashes included, at most one consumer returns normally |
| LedgerSafety.ReturnedIsDurable | scripts/consume_break_glass_approval.py:173-189 | when a consumer has returned, the record is its own, stays through every later run with crashes, and nobody else returns |
| LedgerSafety.OnlyOwnTemporary | scripts/consume_break_glass_approval.py:179-189 | a step removes no name but the temporary file that the consumer created itself, and redirects none; a consumer that reaches its cleanup removes it |
| LedgerSafety.UnpublishedIsConsumable | scripts/consume_break_glass_approval.py:135-189 | in any valid state without a record, left-over temporary files included, a new consumer with a fresh token succeeds and publishes its record, for any sizes of the writes |
| LedgerProcedure.ReadRegularFile | scripts/consume_break_glass_approval.py:38-65 | the read loop returns the whole file or, exactly when the stated size or the content is over the limit, an error |
| LedgerProcedure.WriteRecord | scripts/consume_break_glass_approval.py:152-157 | the write loop is a run of the ledger machine that ends with everything written, exactly when the record is empty or no call fails or returns zero before its end, or on the failure path |
| LedgerProcedure.Publish | scripts/consume_break_glass_approval.py:150-178 | writing, syncing, linking and syncing the directory is a run that ends at the cleanup; which faults lead to which outcome, and exactly when the final name is there, also when the outcome is a failure |
| LedgerProcedure.CleanUp | scripts/consume_break_glass_approval.py:179-187 | the outermost `finally` leaves the temporary file exactly when the unlink fails, touches no other name, and turns the outcome into a failure exactly when the unlink or the last sync fails |
| LedgerProcedure.Consume | scripts/consume_break_glass_approval.py:135-189 | the procedure with any set of failing calls is a run of the ledger machine; it returns exactly when the names are free, the record is written and no call or hook fails, reports a replay exactly when the record is there and can be examined, and the final and the temporary name are there afterwards under exact conditions on the faults |
| SortedNames.SortNames | scripts/cleanup_astra_production_artifacts.py:208-220 | the sort returns exactly the names of the set, each once, in code-point order |
| CleanupRoot.ManagedDirectories | scripts/cleanup_astra_production_artifacts.py:208-220 | the loop over a listing in any order returns the sorted managed directories, or an error exactly when some managed name is not a plain directory |
| CleanupRoot.DailyAnchorIds | scripts/cleanup_astra_production_artifacts.py:237-253 | the dictionary loop returns, for every list of names, the newest name of each day in the window that ends at the newest day |
| CleanupRoot.AppRoot.CollectProtectedReleaseIds | scripts/cleanup_astra_production_artifacts.py:119-205 | the collection loop over all pointers computes the specified protected set or the first error |
| CleanupMeaning.ProtectedMeans | scripts/cleanup_astra_production_artifacts.py:119-205 | the protected releases can be read exactly when the current link and the active state name a release, no other pointer is unusable, and every pointed release is a real directory with the name of a release; they are then exactly the releases that one of the seven pointers names |
| CleanupRoot.AppRoot.CollectTargets | scripts/cleanup_astra_production_artifacts.py:312-332 | the target loop returns the names kept by no rule, in ascending order |
| CleanupRoot.AppRoot.BuildCleanupPlan | scripts/cleanup_astra_production_artifacts.py:296-348 | the planner computes the specified plan or error for every state and parameters, in any listing order |
| CleanupMeaning.PlanAccepts | scripts/cleanup_astra_production_artifacts.py:296-316 | a plan is made exactly for 2 to 50 recent releases and 0 to 365 days, readable pointers, and real directories under all names of releases in both roots |
| CleanupMeaning.TargetsMean | scripts/cleanup_astra_production_artifacts.py:318-332 | a directory is a target exactly when it has the name of a release, no pointer names it, at least as many releases of its root as are kept are newer, and it is not the newest of one of the last days |
| CleanupMeaning.PlanReports | scripts/cleanup_astra_production_artifacts.py:308-348 | what a plan reports as kept: the pointed releases, in each root the releases with fewer newer ones than are kept, in order, and the newest of each of the last days |
| CleanupMeaning.TargetsOrdered | scripts/cleanup_astra_production_artifacts.py:318-332 | targets stand in order: releases before backups, each in the order of their names |
| CleanupMeaning.PlanSparesPointed | scripts/cleanup_astra_production_artifacts.py:323-332 | no target of a plan, release or backup, is named by any of the seven pointers |
| CleanupMeaning.DayMeans | scripts/cleanup_astra_production_artifacts.py:237-253 | the day of a release is the calendar day that its first eight digits spell |
| CleanupMeaning.CalendarSteps | scripts/cleanup_astra_production_artifacts.py:237-253 | the day numbers count the days of the Gregorian calendar one by one, leap years included |
| CleanupMeaning.BeforeMeans | scripts/cleanup_astra_production_artifacts.py:208-220 | the order of names is that of their first different character, a proper prefix first |
| CleanupRoot.AppRoot.RemoveArtifactTarget | scripts/cleanup_astra_production_artifacts.py:351-363 | removing a target takes exactly its directory away, or changes nothing and fails |
| CleanupRoot.AppRoot.ApplyCleanupPlan | scripts/cleanup_astra_production_artifacts.py:366-379 | the removal loop removes a prefix of the plan, the whole plan if it completes |
| CleanupRetention.TargetsPartition | scripts/cleanup_astra_production_artifacts.py:312-332 | targets and kept names partition the managed ones; no target is protected, recent or an anchor |
| CleanupRetention.TargetsAreOlder | scripts/cleanup_astra_production_artifacts.py:312-332 | every target is older than every retained recent |
| CleanupRetention.RecentMeans | scripts/cleanup_astra_production_artifacts.py:312-319 | a name is among the recent ones exactly when fewer than `keep_recent` names are newer |
| CleanupRetention.OneAnchorPerDay | scripts/cleanup_astra_production_artifacts.py:237-253 | every day of the window that has a name has exactly one anchor, its newest name |
| CleanupRetention.FewAnchors | scripts/cleanup_astra_production_artifacts.py:237-253 | there are at most `keep_daily_days` anchors |
| CleanupRetention.KeepingMore | scripts/cleanup_astra_production_artifacts.py:296-348 | raising `keep_recent` or `keep_daily_days` never adds a target |
| CleanupRetention.PlanShrinks | scripts/cleanup_astra_production_artifacts.py:296-348 | after removing a prefix of the targets, the same rules give exactly the remaining targets |
| CleanupStore.AppliesPrefix | scripts/cleanup_astra_production_artifacts.py:366-379 | whatever removals fail, what has been removed is a prefix of the plan and nothing else has changed |
| CleanupStore.ProtectedSurvive | scripts/cleanup_astra_production_artifacts.py:351-379 | after any prefix of the plan every protected release exists and the protected set is collected again, also when the state changed since planning but its protected set did not |
| CleanupMeaning.PointedStay | scripts/cleanup_astra_production_artifacts.py:351-379 | after every prefix of a plan the pointers are as before and every release that one of the seven names is still a directory |
| CleanupMeaning.ApplicationSpares | scripts/cleanup_astra_production_artifacts.py:366-376 | whatever plan is applied to whatever store and whichever removals fail: pointed releases that were all there are all there afterwards, and a plan whose protected releases are not the pointed ones removes nothing |
| CleanupMeaning.RemovalMeans | scripts/cleanup_astra_production_artifacts.py:351-363 | a removal takes exactly one directory away, exactly when it has the name of a release, is a real directory and can be removed, and else changes nothing |
| CleanupMeaning.StopsAtFault | scripts/cleanup_astra_production_artifacts.py:371-376 | an application stops early exactly in front of a target that cannot be removed |
| CleanupStore.FreshPlan | scripts/cleanup_astra_production_artifacts.py:296-348 | a fresh plan after any prefix of a plan is the rest of that plan, with the same protected set |
| CleanupStore.CleanupReachesFixpoint | scripts/cleanup_astra_production_artifacts.py:296-379 | without failures the whole plan is applied, the protected set stays, and a fresh plan has no targets |
| RuffGate.AddedRows | scripts/ruff_diff_gate.py:103-113 | the hunk loop returns exactly the rows that lie in some hunk's added range |
| RuffMeaning.AddedMeans | scripts/ruff_diff_gate.py:88-112 | a row is added exactly when its file is new and has that row, or a hunk holds it: one row without a count, else count rows from the start on |
| RuffGate.AddedPythonLines | scripts/ruff_diff_gate.py:74-113 | the outer loop gives each changed file exactly its own added rows, all rows for an untracked one |
| RuffGate.FindNewIssues | scripts/ruff_diff_gate.py:219-243 | the loop that consumes the baseline counter reports exactly the indexes that are new |
| RuffMeaning.GateReports | scripts/ruff_diff_gate.py:219-243 | an issue is reported exactly when it stands on an added row of its file, or at least as many earlier issues off the added rows have its fingerprint as the baseline has occurrences of it; reports keep the order of the issues |
| RuffGate.CountingLaw | scripts/ruff_diff_gate.py:219-243 | the number of reported issues is the issues on added rows plus, for each fingerprint, how many more off added rows there are than in the baseline |
| RuffGate.ReportedFingerprints | scripts/ruff_diff_gate.py:219-243 | of each fingerprint exactly that surplus is reported off added rows |
| RuffGate.AddedAreReported | scripts/ruff_diff_gate.py:226-236 | every issue on an added row is reported |
| RuffGate.OrderDoesNotMatter | scripts/ruff_diff_gate.py:219-243 | any reordering of the issues reports the same number |
| RuffGate.GatePasses | scripts/ruff_diff_gate.py:219-243 | the gate passes exactly when no issue is on an added row and the issues are contained in the baseline |
| RunFingerprint.HashRun | backend/scripts/audit_creative_benchmark_run.py:90-142 | the procedure hashes exactly the stream of the run's path-to-state map in sorted order |
| RunFingerprint.DigestPaths | backend/scripts/audit_creative_benchmark_run.py:115-141 | the update loop appends exactly the encodings of the paths in their order |
| RunFingerprint.StreamDecodes | backend/scripts/audit_creative_benchmark_run.py:115-141 | a decoder inverts the stream of every list of entries whose lengths fit eight bytes |
| RunFingerprint.StreamIdentifiesRun | backend/scripts/audit_creative_benchmark_run.py:90-142 | two runs have the same stream exactly when they are the same path-to-state map |
| RunFingerprint.LogicalPathsAre | backend/scripts/audit_creative_benchmark_run.py:102-127 | a path is hashed if and only if it belongs to one of the modalities |
| FingerprintMeaning.RunMeans | backend/scripts/audit_creative_benchmark_run.py:102-141 | which concrete paths are hashed, the three files of each modality and what is found below its three directories, not behind links, and for each whether it is said to be a link with its target, a file with its digest, or missing |
| FingerprintMeaning.RunBytes | backend/scripts/audit_creative_benchmark_run.py:129-141 | the bytes of the stream: for every path in the order of names its length in eight bytes, most significant first, the path, and the tag with what follows it |
| RunFingerprint.StreamIdentifiesFiles | backend/scripts/audit_creative_benchmark_run.py:90-142 | two directory trees have the same stream exactly when the same paths are logical and each has the same state |
| FingerprintMeaning.StreamTells | backend/scripts/audit_creative_benchmark_run.py:90-142 | for digests of 64 characters and lengths below 2 to the 64, two directory trees have the same stream if and only if the same is said about the same concrete paths |
| PrincipalCredentials.ParseAccepts | backend/scripts/manage_production_smoke_principals.py:106-159 | credentials are accepted exactly when the keys are exact, the values fit, and the canonical emails and the passwords are acceptable and pairwise different |
| PrincipalsMeaning.CredentialsMean | backend/scripts/manage_production_smoke_principals.py:85-159 | credentials are parsed from a payload exactly when it holds the seven keys with texts of 1 to 4096 characters that spell them: three different emails with one at sign and no whitespace, two with the synthetic suffix, a readable tenant id, three different passwords of 20 to 4096 characters with the four classes; emails are stripped and lower-cased |
| PrincipalCredentials.CanonicalSettles | backend/app/core/identity_canonicalization.py:8-17 | a canonical email is its own canonical form, for every lower-casing that changes nothing the second time and puts no whitespace at the ends |
| PrincipalCredentials.AsciiLowers | backend/app/core/identity_canonicalization.py:16 | lower-casing the letters of ASCII is such a lower-casing |
| PrincipalCredentials.ParseSettles | backend/scripts/manage_production_smoke_principals.py:106-159 | the canonical spelling of accepted credentials gives the same credentials if its emails fit the limit on values, and else exactly the error about values; lower-casing may make an email longer |
| PrincipalCredentials.SpellingDoesNotMatter | backend/scripts/manage_production_smoke_principals.py:99-135 | respelling emails in case or surrounding whitespace gives the same result or error, and two spellings of one email in a payload are refused |
| PrincipalCredentials.ParsedRunsOn | backend/scripts/manage_production_smoke_principals.py:106-613 | parsed credentials that the guards accept stay accepted over any sequence of operations |
| PrincipalsLifecycle.ProvisionReopens | backend/scripts/manage_production_smoke_principals.py:437-551 | a fresh provision succeeds exactly when all three guards accept, and leaves them accepting with the operator active; a replay changes nothing |
| PrincipalsMeaning.OwnerMeans | backend/scripts/manage_production_smoke_principals.py:239-267 | the owner guard answers with a user exactly when it is the only user of the email, an owner of the named tenant with the release-smoke source, no platform admin and without MFA, in an active release QA tenant that nobody is deleting and whose owner is nobody or this user |
| PrincipalsMeaning.MemberMeans | backend/scripts/manage_production_smoke_principals.py:270-289 | the member guard answers with a user exactly when it is the only user of the email, a member of the named tenant with the release-smoke source, no platform admin and without MFA; and with nobody exactly when there is no identity, or one without users that nothing forbids |
| PrincipalsMeaning.OperatorMeans | backend/scripts/manage_production_smoke_principals.py:292-316 | the same for the platform operator, who belongs to no tenant |
| PrincipalsMeaning.OwnerFaults | backend/scripts/manage_production_smoke_principals.py:239-267 | which of its nine errors the owner guard raises, by the first fault of the tenant, the identity and its only user |
| PrincipalsMeaning.MemberFaults | backend/scripts/manage_production_smoke_principals.py:270-289 | which of its six errors the member guard raises for an identity that is there |
| PrincipalsMeaning.OperatorFaults | backend/scripts/manage_production_smoke_principals.py:292-316 | which of its five errors the operator guard raises; a user with a tenant among several comes before their number |
| PrincipalsMeaning.OperationsAccept | backend/scripts/manage_production_smoke_principals.py:437-613 | new operations succeed exactly for an owner with a member and an operator that are there or missing without obstacle; deactivation needs the operator |
| PrincipalsMeaning.ProvisionWrites | backend/scripts/manage_production_smoke_principals.py:437-551 | every field that a provision writes: three identities with their new hashes, one more version, login, activity and verification on, and the admin flag of the operator only; three active users with their tenant, role and source; the owner of the tenant, the participant, the receipt; and that nothing else changes |
| PrincipalsLifecycle.DeactivateReopens | backend/scripts/manage_production_smoke_principals.py:554-613 | a fresh deactivation succeeds exactly when the owner and platform guards accept and the operator exists, leaves the guards accepting, and takes its password, login and authority away; a replay changes nothing |
| PrincipalsMeaning.DeactivateWrites | backend/scripts/manage_production_smoke_principals.py:554-613 | the whole state after a deactivation: the identity of the operator without password, login, activity and authority and with one more version, its user inactive, one receipt, and nothing else |
| PrincipalsMeaning.InventoryMeans | backend/scripts/manage_production_smoke_principals.py:319-380 | the operator has authority exactly when its user and identity are active and the identity is platform admin; an identity can log in exactly when it is active and verified, with password login, a non-empty hash and no MFA |
| PrincipalsLifecycle.ProvisionTouches | backend/scripts/manage_production_smoke_principals.py:437-551 | `auth_version` rises by one for exactly the three emails, other identities stay, only the platform identity is platform admin, and one receipt is added |
| PrincipalsLifecycle.ProvisionSparesUsers | backend/scripts/manage_production_smoke_principals.py:437-551 | every user row but those of the three principals is unchanged |
| PrincipalsLifecycle.ProvisionAdds | backend/scripts/manage_production_smoke_principals.py:437-530 | a provisioning adds at most the member's and the operator's user, each exactly when its guard found none and with the rows of the source, and the member's participant |
| PrincipalsLifecycle.ProvisionSparesTenants | backend/scripts/manage_production_smoke_principals.py:437-551 | of all tenants only the one named changes, and only its owner |
| PrincipalsLifecycle.DeactivateTouches | backend/scripts/manage_production_smoke_principals.py:554-613 | `auth_version` rises by one for exactly the platform email; every other identity, user, tenant and participant is unchanged, and one receipt is added |
| PrincipalsLifecycle.RunLifecycle | backend/scripts/manage_production_smoke_principals.py:397-613 | over any sequence of operations and replays the guards keep accepting, the operator is active exactly when the last applied operation was a provision, and versions count the applied operations |
| PrincipalsLifecycle.CycleCanGoOn | backend/scripts/manage_production_smoke_principals.py:397-613 | provision, deactivate and provision again always succeed, and a replay of the first provision does not enable the operator |
| PrincipalTables.Tables.LoadReleaseOwner | backend/scripts/manage_production_smoke_principals.py:239-267 | the guard over the tables answers as specified, with the first error met |
| PrincipalTables.Tables.LoadOptionalMember | backend/scripts/manage_production_smoke_principals.py:270-289 | the same for the member |
| PrincipalTables.Tables.LoadOptionalPlatform | backend/scripts/manage_production_smoke_principals.py:292-316 | the same for the platform operator |
| PrincipalTables.Tables.ActivateIdentity | backend/scripts/manage_production_smoke_principals.py:409-415 | activation updates that identity and no other row |
| PrincipalTables.Tables.EnsureIdentity | backend/scripts/manage_production_smoke_principals.py:483-512 | creates the identity when it is missing, then activates it |
| PrincipalTables.Tables.EnsureUser | backend/scripts/manage_production_smoke_principals.py:490-530 | creates the user when it is missing, then enables it |
| PrincipalTables.Tables.ProvisionPrincipals | backend/scripts/manage_production_smoke_principals.py:437-551 | the procedure computes the specified state, or rolls back with the specified error |
| PrincipalTables.Tables.DeactivatePlatform | backend/scripts/manage_production_smoke_principals.py:554-613 | the procedure computes the specified state, or rolls back with the specified error |
| OidcEmulator.RunKeeps | backend/scripts/local_oidc_emulator.py:168-233 | every interleaving of approvals and of the token endpoint's two critical sections keeps the dictionaries sound: what is under way or issued came from an approved code that is gone |
| OidcEmulator.TokensComeFromApprovals | backend/scripts/local_oidc_emulator.py:184-233 | every issued token comes from an approved code, presented with the configured id and secret, in time, with equal client, redirect URI and a verifier whose digest is the challenge (section 4.1.3 of RFC 6749, section 4.6 of RFC 7636), its ID token has the approved nonce, and distinct tokens come from distinct codes |
| OidcHistory.TokensHaveHistory | backend/scripts/local_oidc_emulator.py:86-233 | for every issued token of every interleaving there are three actions in this order: an approval at time t of an acceptable request, a presentation of its code before t plus 120 seconds with the client id and secret, the redirect URI of the request and a verifier whose digest is its challenge, and an issue at a time 300 seconds before the expiry; the nonce is that of the request |
| OidcHistory.FlowEarnsToken | backend/scripts/local_oidc_emulator.py:86-233 | in any state, an approval, a presentation and an issue with fresh code, request and token give a token if and only if the request is acceptable and the form answers it, and change no token otherwise |
| OidcEmulator.AttemptBurnsCode | backend/scripts/local_oidc_emulator.py:184-216 | a client-authenticated attempt removes the code for good, whatever else is wrong; a failed client authentication changes nothing (section 4.1.2 of RFC 6749) |
| OidcEmulator.CodeIsOneTime | backend/scripts/local_oidc_emulator.py:168-233 | over any interleaving a code yields at most one access token |
| OidcEmulator.UserInfoMeans | backend/scripts/local_oidc_emulator.py:236-250 | user information is given exactly for an issued token before its expiry, where an expiry time of zero counts as expired |
| OidcEmulator.Server.ApproveRequest | backend/scripts/local_oidc_emulator.py:168-182 | adds exactly the new grant, field by field and two minutes long, and only for an acceptable request |
| OidcEmulator.Server.TakeCode | backend/scripts/local_oidc_emulator.py:184-216 | the first critical section removes the code exactly for an authenticated client, hands out its grant exactly when time, client, redirect URI, verifier and challenge agree, and raises exactly when the PKCE comparison does |
| OidcEmulator.Server.IssueToken | backend/scripts/local_oidc_emulator.py:217-233 | the second critical section adds exactly the new token with its lifetime |
| OidcEmulator.Server.CheckToken | backend/scripts/local_oidc_emulator.py:236-250 | accepts exactly the tokens that are stored and not expired |
| WorkerHealth.RunKeeps | backend/app/main.py:56-96 | over every order of events, ready implies that tracking has started and nothing has failed |
| WorkerHealth.HealthMeans | backend/app/main.py:56-96 | after a begin, the worker is healthy exactly when a ready event has come and since the begin no stop and no failure of a critical task, in any order of events and whatever came before |
| WorkerHealth.NeverBegun | backend/app/main.py:828-836 | before the first begin nothing makes the worker healthy |
| WorkerHealth.DownStaysDown | backend/app/main.py:70-96 | after a stop or a critical failure nothing but a begin makes it healthy again |
| WorkerHealth.CriticalFailure | backend/app/main.py:511-546 | a critical task that ends while tracked, by return or by exception, marks the worker failed and, in the worker process, schedules its termination unless that is already scheduled, and health stays unavailable until the next begin |
| WorkerHealth.OrdinaryCrash | backend/app/main.py:511-546 | an ordinary task that raises schedules a termination exactly in the worker process and when none is scheduled, and changes nothing else |
| WorkerHealth.HarmlessExit | backend/app/main.py:511-527 | the exit of a cancelled task, of an ordinary task that returned, and of a critical task outside tracking changes nothing, at once or later |
| WorkerHealth.ResetsRearm | backend/app/main.py:56-96 | after every begin and every stop a crash schedules a termination again |
| WorkerHealth.HealthyButTerminating | backend/app/main.py:511-546 | a concrete run to a healthy worker whose termination is scheduled |
| WorkerHealth.OneTermination | backend/app/main.py:511-546 | between two resets at most one termination is scheduled |
| WorkerHealth.TerminationsBounded | backend/app/main.py:56-96 | over every run there are at most as many terminations as begin and stop resets, plus one |
| WorkerHealth.WorkerProcess.BeginRuntimeTracking | backend/app/main.py:56-67 | the assignments are the begin transition on all flags |
| WorkerHealth.WorkerProcess.MarkRuntimeReady | backend/app/main.py:70-74 | the assignment is the ready transition |
| WorkerHealth.WorkerProcess.MarkRuntimeFailed | backend/app/main.py:77-86 | the assignments are the failure transition |
| WorkerHealth.WorkerProcess.StopRuntimeTracking | backend/app/main.py:89-96 | the assignments are the stop transition |
| WorkerHealth.WorkerProcess.TaskStopped | backend/app/main.py:511-546 | the exit callback with its early returns is the exit transition |
| WorkerHealth.WorkerProcess.HealthCheck | backend/app/main.py:828-836 | health is demanded only of the worker process, where all three flags must be right, and is then the machine's |
| WorkerHealth.WorkerProcess.CheckStartup | backend/app/main.py:612-645 | startup succeeds exactly when some critical task was started and none has ended, and then marks the worker ready; else every critical task is marked failed and exactly the tasks that still go on are cancelled |
| WorkerHealth.WorkerProcess.FailStartup | backend/app/main.py:627-641 | the exception branch: the loop over the critical names and the loop over the tasks |

## Left out

- Reading, writing and checking files, file ownership and modes, atomic replacement, the command lines and their JSON output of all tools.
- Nginx: the install functions, the audit of the effective configuration printed by `nginx -T` and the extraction of one source from it.
- Nginx: case folding is ASCII lower-casing, which is exact for the fixed ASCII names that it is compared with.
- Nginx: sorting spans and offsets in descending order is reversing them; `SpansOfText` and `PointsOfText` show that they ascend.
- Nginx: what the server does with a configuration; quotes stay in words, as in the code.
- Ledger: the validation of arguments and digests, the encoding of the record, the ownership checks of the ledger directory, other nonces, and changes made by other programs.
- Cleanup: the text formats behind the pointers (a pointer is absent, invalid, or names releases), tree sizes, Docker images, what a failed recursive removal leaves inside its directory, digits outside ASCII in release ids, invalid calendar dates, and windows that reach before the calendar's first day.
- Ruff gate: the Git and Ruff subprocesses, reading hunk headers, and computing fingerprints from files.
- Run fingerprint: SHA-256 (the digest of a file is an input, and the result is the hashed stream), UTF-8 (paths are byte strings); the run directory is given as what each path in it leads to.
- RunFingerprint.StreamDecodes: covers lengths below 2 to the power 64, the most that eight bytes hold; the code raises beyond.
- Principals: Python's Unicode tables for lower-casing and the classes of characters, and the reading of tenant ids (all given as functions), hashing passwords, locks (each operation is one atomic step), identities without an email, the report of the inventory but for what `InventoryMeans` states.
- OIDC emulator: HTTP, signing of ID tokens, parsing redirect URIs and scopes (their checks are inputs); random codes and tokens are never drawn twice.
- Worker health: the scheduling of tasks, recording of issues, other monitors, delivery of the termination signal.
- The smoke programs that drive other services, evidence merging, DNS checks, seeding and catalogues: mostly field checks and input and output.
