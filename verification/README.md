# SirrMesh, modelled and verified in Dafny

SirrMesh is a mail server written in Go. This project models seven of its parts and proves what they
promise for every input, every run or every interleaving:

- **Sessions and limits** (`Sessions`, `SessionAccounting`, `SessionLimits`, `SessionLeaks`,
  `SessionCalls`, `Limiters`): any number of SMTP sessions take and release units of shared limiters.
  The slots in the semaphores are always exactly those that the sessions hold, no release is ever
  mismatched, and a message is committed exactly when its body was delivered.
- **Configuration** (`Lexer`, `LexerMeaning`, `Quoting`, `Words`, `Dispenser`, `ConfigTree`,
  `ConfigParser`, `ConfigPrinting`, `ConfigSource`, `ConfigErrors`, `Imports`, `ImportSubstitution`,
  `ImportMeaning`, `ImportFiles`): what the lexer makes of any input; what the configuration language
  with its layouts, macros and snippets means, and that reading gives exactly that or the right error;
  import expansion terminates and means substitution, up to a depth that is known exactly.
- **Checks and DMARC** (`CheckCalls`, `CheckRunner`, `CheckMerging`, `Dmarc`, `DmarcAlignment`,
  `DmarcRecord`, `DmarcOutcome`): states of checks are made on demand and replayed what they missed
  exactly once, and what becomes of a message does not depend on the order in which checks finish.
- **Recipient tracing** (`Tracing`, `Offers`, `Statuses`, `Pipeline`): what rewriting adds to the deliveries, and exactly what the
  client hears of each recipient, however addresses were rewritten.
- **Connection pool** (`Pool`, `PoolInvariant`, `PoolConservation`, `PoolReuse`): connections are
  conserved over every interleaving of `Get`, `Return`, `CleanUp` and `Close`, and kept, reused and
  thrown away exactly when the configured ages and sizes say so.
- **Modules** (`Registration`, `Modules`, `ModuleGraph`, `ModuleStart`, `ShutdownOrder`): every name
  leads to its block, initialisation is a depth-first walk of the reference graph that succeeds exactly
  when everything reachable is in order, and shutdown closes every object that lies on no cycle before
  all it reaches.
- **Addresses** (`Address`, `AddressMeaning`): quoting, unquoting, splitting and validation agree.

Code that runs in one thread is a class or a method proved against a specification function, and
the properties are lemmas about that function. Code whose difficulty is concurrency (sessions with
their limiters, the pool, the token bucket, the merging of check results) is a step system on
values: every locked region, channel operation and iteration outside a lock is one step, and the
theorems hold for all sequences of enabled steps.

What the model takes as a parameter: address normalisation and the domain of an address in
sessions, the public suffix list, case folding, the DNS and the parser of records in DMARC, letters and
digits of Unicode, embedded macros, the file system seen by imports, the percentage draw, the clock.
What modifiers, checks, targets, factories and `cfg.New` answer is arbitrary.

Where code and documentation disagree the model follows the code:

- The lexer does not split braces off as tokens of their own, although its comment says so
  (framework/config/lexer/lexer.go:92-93).
- A `#` inside a word hides the rest of that word, not the rest of the line as the lexer's comment says
  (framework/config/lexer/lexer.go:95); `Words.HashHidesLineIff` says exactly when that is the same.
- `NextArg` and `NextLine` claim to have loaded a token when there is none at all
  (framework/config/lexer/dispenser.go:86-90, 107-111); their contracts say so.
- Without deferred reject, `Mail` stores the sender as it was written after the limits were taken
  for the normalised one, and with source limits but no IP limits a refusal goes through a bucket set
  that does not exist. `SessionLeaks.SoundIffKeysStable` and `SessionLeaks.SoundIffIpLimits` say exactly
  when the limits work.
- The field for the DKIM result is described as that of the first signature when none is aligned;
  the code keeps the first one that has a value (internal/dmarc/evaluate.go:102-105, 133-135), and the
  last one when none has. `Dmarc.ShownIsFirstIff` says exactly when that is the one described.
- A domain with TXT records under `_dmarc` none of which is a policy is not looked up under its
  organisational domain, as section 6.6.3 of RFC 7489 asks; `DmarcRecord.FetchRecord` says exactly when
  that makes a difference.
- Relaxed alignment rejects a domain that has no organisational domain and is no public suffix, even
  against itself; `DmarcAlignment.StrictIsNarrowerIff` says so exactly.
- `Return` notes the time of use in a copy of the bucket (internal/smtpconn/pool/pool.go:190), so a bucket
  ages from its creation on, however much it is used (`PoolReuse.BucketKeepsItsAge`).
- `RegisterAlias` promises that an alias gives the same as its name. That holds if and only if the name is
  not itself an alias (`ModuleStart.AliasIsSameIff`), and always for blocks that `RegisterModules` accepts.
- `UnquoteMbox` accepts a quoted local part without its closing quote (`AddressMeaning.UnquotesIff`).
- `Rate.Close` is said to make waiting takes fail; tokens that are left are still handed out first
  (`Limiters.CloseEndsTakes`).
- A quoted text with an odd run of backslashes before a quote or at its end cannot be written in
  double quotes at all; `Quoting.LexingUndoesQuoting` is an equivalence for this reason.
- An object on a cycle of references may be closed after one that it reaches
  (`ShutdownOrder.OnACycleClosedLate`); `ShutdownOrder.ClosedFirstIff` says exactly which of two
  objects is closed first.
- A status may name a recipient other than the one the address was accepted for when another one was
  rewritten to it later (`Tracing.LastOneIsNamed`); `Tracing.ExactIff` says exactly when all statuses
  name the right one.
- The finishing order of checks matters when a rejecting or quarantining result carries no reason;
  `CheckMerging.AnyOrderIffSettled` says exactly when it does not.

## Model

| member | source | states |
|---|---|---|
| `SessionAccounting.EveryStepKeepsInv` | internal/endpoint/smtp/session.go:113-430 | Every step of every session keeps: slots in the semaphores equal the sessions' holdings, none over capacity, every held bucket exists, no panic |
| `SessionAccounting.UndoIsTaken` | internal/limits/limits.go:174-196 | What `MultiLimit` and `TakeMsg` roll back on a failed take is exactly what had been taken |
| `SessionAccounting.ReleaseFindsUnit` | internal/limits/limiters/concurrency.go:56-65 | A unit that is pending release is in its semaphore, so the mismatched-release panic is not taken |
| `SessionAccounting.AccountingIsExact` | internal/limits/limits.go:174-215 | Over every interleaved run the semaphores contain exactly the units of open deliveries and of commands part-way through `TakeMsg` or `ReleaseMsg` |
| `SessionAccounting.NeverPanics` | internal/limits/limiters/concurrency.go:44-65 | No run reaches a mismatched release or the use of a missing limiter |
| `SessionAccounting.NothingLeaks` | internal/endpoint/smtp/session.go:123-159 | When no session has a delivery or a command under way, all semaphores are empty |
| `SessionLimits.ConcurrencyIsLimited` | internal/limits/limits.go:174-196 | In no state of any run are more transactions open than a concurrency limit allows, in total, from one client address, or from one sender domain |
| `SessionLimits.RoomMeansSlot` | internal/limits/limiters/concurrency.go:44-54 | A session that is up for a slot can take it if and only if fewer transactions and sessions under way hold one than the limit allows |
| `SessionLeaks.MailAndResetLeak` | internal/endpoint/smtp/session.go:289-313 | Without deferred reject, MAIL and RSET of a sender whose domain normalisation changes leave its source slots taken |
| `SessionLeaks.SoundIffKeysStable` | internal/endpoint/smtp/session.go:195-313 | Without deferred reject and with a source semaphore, the limits neither panic nor leak over all runs if and only if there are IP limits and normalisation leaves every accepted sender's domain alone |
| `SessionLeaks.RefusedSourcePanics` | internal/limits/limits.go:188-194 | Without IP limits, if some source limiter can refuse, a run reaches a panic |
| `SessionLeaks.SoundIffIpLimits` | internal/limits/limits.go:174-215 | With deferred reject, the limits neither panic nor leak over all runs if and only if there are IP limits or no source limiter can refuse |
| `SessionCalls.DataCallsOk` | internal/endpoint/smtp/session.go:463-562 | `Data` commits only after the body call on the same delivery succeeded, `LMTPData` after its per-recipient body call |
| `SessionCalls.DeliveryLifecycle` | internal/endpoint/smtp/session.go:113-159 | Over every run a delivery gets at most one commit or abort, no call after it, and a commit only after its own body call, which in SMTP mode succeeded; in LMTP mode the source commits whatever the recipients' statuses are |
| `SessionCalls.CommittedIffDelivered` | internal/endpoint/smtp/session.go:463-562 | Over every run a delivery is committed if and only if its body was delivered: by a body call that succeeded in SMTP mode, by the per-recipient call in LMTP mode |
| `SessionCalls.CommandsOnOpen` | internal/endpoint/smtp/session.go:348-562 | On an open delivery RSET and QUIT make exactly one call, the abort; a valid RCPT adds the recipient; DATA hands over the body and commits exactly if that succeeds; no other session and no limiter is touched |
| `SessionCalls.TransactionEnds` | internal/endpoint/smtp/session.go:149-159 | Once the limits are given back nothing of the transaction is left in the session |
| `SessionCalls.FirstRcptStarts` | internal/endpoint/smtp/session.go:348-388 | The first RCPT starts the delivery of the sender that MAIL named, under the client address and the domain of the normalised sender; after a failure there is no second attempt |
| `SessionCalls.MailNotesSender` | internal/endpoint/smtp/session.go:289-313 | With deferred reject MAIL only notes the sender; otherwise it goes on to take the limits, unless the sender has no domain |
| `SessionCalls.StartOpens` | internal/endpoint/smtp/session.go:263-287 | A successful start opens a new delivery, to which the recipient that caused it is added |
| `SessionCalls.FailedStartRests` | internal/endpoint/smtp/session.go:195-262 | A failed start leaves the session at rest, and RCPT remembers the failure |
| `Limiters.BucketSet.constructor` | internal/limits/limiters/bucket.go:60-70 | A new bucket set is empty |
| `Limiters.BucketSet.DropStale` | internal/limits/limiters/bucket.go:81-100 | With a clock that does not run backwards the reaping loop removes nothing |
| `Limiters.BucketSet.Take` | internal/limits/limiters/bucket.go:81-120 | An overfull set gives nothing; otherwise the key's own limiter is kept or made, and only its last use changes |
| `Limiters.NeverOverfull` | internal/limits/limiters/rate.go:44-85 | The token bucket never holds more than the burst, under any interleaving of takers, ticks and `Close` |
| `Limiters.RateLimitsTakes` | internal/limits/limiters/rate.go:62-117 | In any stretch of a run that overlaps k refill rounds at most burst * (k + 1) takes get a token |
| `Limiters.BoundIsReached` | internal/limits/limiters/rate.go:62-110 | For every k some run with k refill rounds has exactly burst * (k + 1) takes, so the bound is tight |
| `Limiters.CloseEndsTakes` | internal/limits/limiters/rate.go:62-117 | Takes fail only after `Close`; once it is noticed, exactly as many takes as tokens are left still succeed, and then every take fails at once |
| `Limiters.FlagsAndTokens` | internal/limits/limiters/rate.go:44-117 | Tokens are conserved: what is in the bucket is what was there, plus what was added, minus what was taken |
| `Lexer.Skip` | framework/config/lexer/lexer.go:100-178 | Reading a token consumes input |
| `Lexer.Scanner.Load` | framework/config/lexer/lexer.go:64-81 | A byte order mark is dropped and counting starts at line 1 |
| `Lexer.Scanner.Next` | framework/config/lexer/lexer.go:100-178 | The character loop with its flags computes the recursive description of a token, of which `LexerMeaning.NextMeaning` says what it is, and at the end nothing is left |
| `Lexer.AllTokens` | framework/config/lexer/parse.go:28-42 | The loop gives all tokens of the input; `LexerMeaning.TokensMeaning` says what they are |
| `Lexer.QuotedLines` | framework/config/lexer/lexer.go:108-145 | A quoted token's line plus its newlines is the lexer's line after it |
| `Lexer.ConsecutiveLines` | framework/config/lexer/lexer.go:100-178 | The next token's line is this one's, plus its embedded newlines, plus those between the two tokens |
| `LexerMeaning.NextMeaning` | framework/config/lexer/lexer.go:100-178 | For any input: blanks and comments are passed over; an unquoted token is all up to the next blank other than a carriage return, cut at the first `#` and without carriage returns; a quoted one is the enclosed text with escaped quotes unescaped and nothing else; there is no token if and only if only blanks and comments are left, or then a quote that encloses nothing and is not closed |
| `LexerMeaning.TokensMeaning` | framework/config/lexer/parse.go:28-42 | Every token of an input is the first one, in that sense, of what the token before it has left, and nothing is left after the last |
| `LexerMeaning.SkipIgnorable` | framework/config/lexer/lexer.go:147-166 | Blanks and comments, however mixed, change nothing but the line number |
| `Quoting.RenderingLexes` | framework/config/lexer/lexer.go:100-178 | Quoted texts between blanks lex to exactly those texts, each on the line where it stands |
| `Quoting.UnquotableTextsAreLost` | framework/config/lexer/lexer.go:108-145 | A list with a text that has an odd run of backslashes before a quote or at the end never lexes back to itself |
| `Quoting.LexingUndoesQuoting` | framework/config/lexer/parse.go:28-42 | Lexing undoes quoting if and only if no text has such a run |
| `Words.WordsReadBack` | framework/config/lexer/lexer.go:100-178 | Bare words and quoted texts, apart by any blanks and comments, lex back to exactly those texts on their lines, and comments give no token |
| `Words.FileOfWordsReadsBack` | framework/config/lexer/parse.go:28-42 | The same for a whole file, with or without a byte order mark |
| `Words.HashHidesLineIff` | framework/config/lexer/lexer.go:95-166 | Behind a `#` inside a word the rest of the line is skipped if and only if it is blank or a comment anyway, or no token follows |
| `Words.HashHidesOneWord` | framework/config/lexer/lexer.go:160-166 | The tokens of `a#b c` are `a` and `c` |
| `Dispensing.Dispenser.Next` | framework/config/lexer/dispenser.go:74-81 | Advances exactly when a token follows |
| `Dispensing.Dispenser.NextArg` | framework/config/lexer/dispenser.go:86-102 | Advances exactly when a token of the same line follows, and always before the first token, where a token is loaded if and only if there is one |
| `Dispensing.Dispenser.NextLine` | framework/config/lexer/dispenser.go:107-122 | Advances exactly when a token of a later line follows, and always before the first token, where a token is loaded if and only if there is one |
| `Dispensing.Dispenser.NumLineBreaks` | framework/config/lexer/dispenser.go:259-264 | Counts the newlines in a token |
| `Dispensing.ExactlyOneAdvances` | framework/config/lexer/dispenser.go:86-122 | On a lexed stream exactly one of `NextArg` and `NextLine` advances, and it is `NextArg` exactly when no newline stands between the two tokens |
| `ConfigTree.ValidateNodeName` | framework/cfgparser/parse.go:74-104 | Accepts exactly the nonempty names that do not start with a digit and consist of the allowed characters, and says what is wrong with others |
| `ConfigTree.MacroFreeUnchanged` | framework/cfgparser/imports.go:114-156 | Macro expansion leaves a tree without `$(` as it is |
| `ConfigParser.ReadNode` | framework/cfgparser/parse.go:106-175 | Reading a directive terminates on every token stream and never moves back |
| `ConfigParser.ReadArgs` | framework/cfgparser/parse.go:121-156 | The argument loop terminates by 2 * (remaining tokens) + (number of arguments), through backslash continuations too |
| `ConfigParser.ReadLines` | framework/cfgparser/parse.go:219-349 | Reading a block terminates on every token stream and never moves back |
| `ConfigParser.ParseContext.ReadNodeHere` | framework/cfgparser/parse.go:106-175 | The cursor-moving reader refines the recursive description: same node, same error, same cursor, nesting, macros and snippets |
| `ConfigParser.ParseContext.ReadBlock` | framework/cfgparser/parse.go:219-349 | The block loop refines the recursive description in the same sense |
| `ConfigParser.ParseContext.Take` | framework/cfgparser/parse.go:283-340 | Macro and snippet declarations go to their tables, other nodes to the tree |
| `ConfigPrinting.NodeReadsBack` | framework/cfgparser/parse.go:106-175 | A printed directive, with its arguments and block, reads back as itself inside any printed surroundings |
| `ConfigPrinting.LinesReadBack` | framework/cfgparser/parse.go:219-349 | A printed list of directives reads back as itself at every nesting and in every block |
| `ConfigPrinting.TokensReadBack` | framework/cfgparser/parse.go:106-349 | Printing any configuration tree and parsing its tokens gives the same tree, with no block distinct from an empty block |
| `ConfigSource.SourceIsRead` | framework/cfgparser/parse.go:106-349 | A source of directives, blocks, macros and snippets, in any layout with wrapped lines, first directives on the line of the opening brace and closing braces on the line of the last one, is read as exactly the directives it means, with macros in place of their uses, and the macros and snippets it declares |
| `ConfigSource.LinesAreRead` | framework/cfgparser/parse.go:219-349 | The same for the lines of any block at any nesting, from any tables and any results so far |
| `ConfigSource.ArgsAreRead` | framework/cfgparser/parse.go:121-156 | Arguments are read in order, wherever a backslash wraps the line |
| `ConfigSource.ArgsExpand` | framework/cfgparser/imports.go:119-147 | A whole-argument macro stands for the arguments it was given last, an undefined one for none, and other text for itself |
| `ConfigSource.LineIsTaken` | framework/cfgparser/parse.go:283-340 | A macro or snippet declaration adds exactly its table entry, a directive adds its node with macros put in, and a closing brace at the end of its line closes the block |
| `ConfigErrors.StrayBraceIsRefused` | framework/cfgparser/parse.go:273-287 | A closing brace on the outermost level is refused after whatever lines |
| `ConfigErrors.BareBlockIsRefused` | framework/cfgparser/parse.go:111-113 | A block without a header is refused at any depth |
| `ConfigErrors.TooDeepIsRefused` | framework/cfgparser/parse.go:224-226 | A block inside 256 others is refused, whatever stands before it |
| `ConfigErrors.DeclarationInsideIsRefused` | framework/cfgparser/parse.go:308-327 | A macro or a snippet declared inside a block is refused at any depth, each with its own error |
| `ConfigErrors.UnclosedIsRefused` | framework/cfgparser/parse.go:371-376 | A file that ends inside a block is refused at any depth |
| `Imports.ExpandImports` | framework/cfgparser/imports.go:28-75 | Expansion terminates on every tree, snippet table and file system, and keeps the name, the arguments and whether there is a block |
| `Imports.NoImportRemains` | framework/cfgparser/imports.go:28-75 | After expansion no `import` remains anywhere below the root |
| `Imports.ImportFreeExpandsToItself` | framework/cfgparser/imports.go:28-75 | A tree without imports expands to itself at every depth |
| `Imports.ExpansionIsIdempotent` | framework/cfgparser/imports.go:28-75 | Expanding a result again, in any context and at any depth, changes nothing |
| `Imports.ShallowerGivesSame` | framework/cfgparser/imports.go:28-80 | If expansion succeeds at a depth, it gives the same tree and tables at every smaller depth |
| `Imports.ShallowerFile` | framework/cfgparser/parse.go:351-385 | The same for reading a whole file, with the files it imports |
| `ImportMeaning.SameBlind` | framework/cfgparser/imports.go:77-112 | If no import of the tree or of a snippet is served from a file, expansion is the same as if no file could be read |
| `ImportMeaning.TableIsFixed` | framework/cfgparser/imports.go:77-112 | Expansion that imports no file leaves the tables as they are |
| `ImportMeaning.EndlessNeverExpands` | framework/cfgparser/imports.go:28-80 | A tree that mentions a snippet of a set each of whose members mentions the set never expands |
| `ImportMeaning.RecursiveSnippetNeverExpands` | framework/cfgparser/imports.go:28-80 | A snippet that reaches itself through imports, at any nesting, can never be expanded |
| `ImportMeaning.ExpansionIsSubstitution` | framework/cfgparser/imports.go:28-80 | The multi-pass expansion computes the recursive substitution of snippets for imports |
| `ImportMeaning.FailureMeansUndefined` | framework/cfgparser/imports.go:28-112 | Expansion fails for another reason than the depth limit only if there is no substitution at all |
| `ImportMeaning.SubstitutionDecides` | framework/cfgparser/imports.go:28-112 | Where the substitution is defined, expansion gives exactly it if the levels it needs fit under 256, and reports the limit if not |
| `ImportMeaning.ExpandsIff` | framework/cfgparser/imports.go:28-75 | Expansion succeeds if and only if the substitution is defined within the levels left and its need fits |
| `ImportSubstitution.ExpandsIffFits` | framework/cfgparser/imports.go:37-74 | Through all passes and nested blocks, a defined tree expands if and only if starting depth plus need is at most 256, or there is nothing to import |
| `ImportSubstitution.FitsPassByPass` | framework/cfgparser/imports.go:63-74 | A need fits if and only if the first pass does and then, one level deeper, what that pass has put in |
| `ImportMeaning.FileReadsBack` | framework/cfgparser/parse.go:351-391 | A tree printed to a file is lexed, parsed and expanded back to itself at any depth |
| `ImportFiles.FileIsSpliced` | framework/cfgparser/imports.go:82-112 | A file found under its name, or else under `.conf`, contributes in place of the import what it reads as on its own one level deeper, and its snippets and macros replace entries of the same name |
| `ImportFiles.WrittenFileIsSpliced` | framework/cfgparser/imports.go:82-112 | A file that holds a printed tree contributes that tree and leaves the tables alone |
| `ImportFiles.SnippetIsSpliced` | framework/cfgparser/imports.go:77-80 | A snippet contributes its body in place of the import, before any file of the same name |
| `ImportFiles.SnippetOfFile` | framework/cfgparser/imports.go:100-110 | A snippet that a file declares can be imported after the file |
| `ImportFiles.ImportFails` | framework/cfgparser/imports.go:86-103 | An import fails as unknown if neither file exists, and with the error of the file if it cannot be opened or read |
| `ImportFiles.ImportRefused` | framework/cfgparser/imports.go:44-56 | Past the depth limit an import fails whatever it is of, and before it takes exactly one argument |
| `CheckCalls.ReplayMeaning` | internal/msgpipeline/check_runner.go:126-150 | A replay shows a state exactly the recipients it had not seen, each once, and forgets nothing |
| `CheckCalls.ReplayOrder` | internal/msgpipeline/check_runner.go:126-150 | Replayed recipients come in the order in which they were first checked |
| `CheckRunner.Runner.constructor` | internal/msgpipeline/check_runner.go:59-68 | A new runner has no states and nothing merged |
| `CheckRunner.Runner.CallState` | internal/msgpipeline/check_runner.go:254-268 | A state is called for a recipient unless it was called for it before |
| `CheckRunner.Runner.RunAndMerge` | internal/msgpipeline/check_runner.go:161-237 | In any order of goroutines every listed state gets the call as often as it is listed, recipients once only, and the results are merged by some complete schedule |
| `CheckRunner.Runner.MakeStates` | internal/msgpipeline/check_runner.go:80-96 | A check without a state gets a fresh one; others keep theirs; a failure installs nothing |
| `CheckRunner.Runner.OpenStates` | internal/msgpipeline/check_runner.go:107-124 | Each new state has received `CheckConnection` and then `CheckSender`, once each; no other state is called |
| `CheckRunner.Runner.ReplayRcpts` | internal/msgpipeline/check_runner.go:126-150 | Each listed state has been replayed all recipients checked so far, others are untouched |
| `CheckRunner.Runner.CheckStates` | internal/msgpipeline/check_runner.go:70-159 | A newly installed state has received exactly connection, sender and the replay of all recipients so far; an older one only what it missed; every installed state stays opened with each recipient at most once |
| `CheckRunner.Runner.CheckConnSender` | internal/msgpipeline/check_runner.go:239-246 | The sender is recorded and the states of the checks are installed for it |
| `CheckRunner.Runner.CheckRcpt` | internal/msgpipeline/check_runner.go:248-272 | Every check of the list has seen the recipient, new states began with the full replay, and a rejected recipient counts as checked too |
| `CheckRunner.Runner.CheckBody` | internal/msgpipeline/check_runner.go:274-289 | Every check of the list has seen the body, after the full replay if its state is new |
| `CheckRunner.Runner.ApplyResults` | internal/msgpipeline/check_runner.go:291-326 | The refusal code and the quarantine flag are those of the disposition of what was merged, and the DMARC result is added to the results; `DmarcOutcome.RefusedIff`, `QuarantinedIff` and `ReportedMeaning` say what these are |
| `CheckRunner.RunnersAgree` | internal/msgpipeline/check_runner.go:161-326 | Two runs with the same multiset of results in every round come to the same disposition, whatever the orders in which checks ran and finished |
| `CheckMerging.StepsKeep` | internal/msgpipeline/check_runner.go:177-224 | Under every schedule the merged results are those of the goroutines that appended, and a slot holds the reason of a finished claimant |
| `CheckMerging.SettledMerges` | internal/msgpipeline/check_runner.go:226-237 | For a settled round, every complete schedule rejects, quarantines and collects as a description without schedules says |
| `CheckMerging.ErrorIsAReason` | internal/msgpipeline/check_runner.go:205-237 | Under every complete schedule the error of a rejected round is the reason of one of its rejecting results |
| `CheckMerging.UnsettledDiffers` | internal/msgpipeline/check_runner.go:209-216 | For a round that is not settled there are two complete schedules with different outcomes |
| `CheckMerging.AnyOrderIffSettled` | internal/msgpipeline/check_runner.go:161-237 | The finishing order does not matter if and only if the results that reject all carry a reason or none does, and likewise for quarantine unless the flag cannot change |
| `Dmarc.EvaluateAlignment` | internal/dmarc/evaluate.go:118-203 | The loop computes the verdict defined by existence of results, the last SPF result, both alignment flags, and as DKIM result to show the first with a value, or else the last, from the last aligned one on |
| `Dmarc.SinceAlignedMeaning` | internal/dmarc/evaluate.go:136-137 | These are the results from the last aligned DKIM result on, or all of them when none is aligned |
| `Dmarc.ShownIsFirstIff` | internal/dmarc/evaluate.go:102-105 | The result shown is the one described if and only if that has a value, or none from it on has one and it is the last |
| `DmarcAlignment.ShownIsAt` | internal/dmarc/evaluate.go:130-150 | At which place the DKIM result that is shown stands: from the last aligned one on, the first with a value, or the last if none has one |
| `DmarcAlignment.VerdictOfAny` | internal/dmarc/evaluate.go:118-203 | Each verdict for any list of results, several SPF results included, exactly under its own condition on the places of the results |
| `DmarcAlignment.AlignmentIsSymmetric` | internal/dmarc/evaluate.go:205-224 | It does not matter which of two domains is the one of the From field |
| `DmarcAlignment.StrictIsNarrowerIff` | internal/dmarc/evaluate.go:205-224 | What is strictly aligned is aligned in relaxed mode if and only if the domain is a public suffix or has an organisational domain |
| `DmarcRecord.FetchRecord` | internal/dmarc/evaluate.go:37-86 | The record found is the one of section 6.6.3 of RFC 7489 if and only if the domain has a policy or no TXT records at all, or there is no record either way |
| `DmarcRecord.PolicyCounts` | internal/dmarc/evaluate.go:69-85 | Of a domain with a policy, or else of its organisational domain: one policy is the record, whatever other records there are, and several are none |
| `DmarcRecord.OtherTextHidesPolicy` | internal/dmarc/evaluate.go:51-75 | The input on which the two differ |
| `DmarcOutcome.VerdictIgnoresOrderIff` | internal/dmarc/evaluate.go:127-203 | The verdict is the same for every order of the results if and only if it does not hinge on which SPF result comes last |
| `DmarcOutcome.VerdictMeaning` | internal/dmarc/evaluate.go:160-203 | With one SPF result: pass exactly when both mechanisms were checked and one of them passes with an aligned identifier (section 6.6.2 of RFC 7489); otherwise none, temporary error or fail, each exactly under its own condition |
| `DmarcOutcome.Apply` | internal/dmarc/verifier.go:129-174 | Computes the value to report and the policy to apply, of which the next three rows say what they are |
| `DmarcOutcome.RefusedIff` | internal/dmarc/verifier.go:129-174 | A message is refused exactly on a temporary lookup failure, or when both mechanisms were checked, nothing is aligned and the sampled policy is to reject; 450 exactly when temporary |
| `DmarcOutcome.QuarantinedIff` | internal/msgpipeline/check_runner.go:291-326 | A message is quarantined exactly when a check asked for it, or both mechanisms were checked, nothing is aligned and the sampled policy is to quarantine |
| `DmarcOutcome.ReportedMeaning` | internal/dmarc/verifier.go:129-174 | Which DMARC value is reported, each exactly under its own condition |
| `DmarcOutcome.RoundsIgnoreSchedules` | internal/msgpipeline/check_runner.go:161-237 | Over all rounds of a message, the rejected commands, the flag and the multiset of results depend neither on the schedules nor on the order of the results of a round |
| `DmarcOutcome.OutcomeIgnoresSchedules` | internal/msgpipeline/check_runner.go:291-326 | With reasons given and one SPF result, accept, quarantine, 450 or 550 depends neither on the schedules nor on the order of the results of a round |
| `Tracing.NameLeadsThere` | internal/msgpipeline/msgpipeline.go:443-449 | The recipient named for an address is one whose rewriting led to that address |
| `Tracing.NamedIffUppermost` | internal/msgpipeline/msgpipeline.go:348-350 | An address is traced back to a recipient if and only if nobody else was rewritten to it later, or at all if the recipient is the address itself |
| `Tracing.ExactIff` | internal/msgpipeline/msgpipeline.go:438-449 | Statuses name exactly the recipients that targets accepted addresses for if and only if that holds of every accepted address |
| `Tracing.UnambiguousIsExact` | internal/msgpipeline/msgpipeline.go:438-449 | In particular they do if no two recipients led to one address |
| `Tracing.LastOneIsNamed` | internal/msgpipeline/msgpipeline.go:348-350 | Two recipients rewritten to one accepted address: only the last is ever named; if the first was refused, all is well |
| `Pipeline.PipelineDelivery.GetDelivery` | internal/msgpipeline/msgpipeline.go:619-636 | A target has one delivery, started on first use exactly if it can be |
| `Pipeline.PipelineDelivery.Offer` | internal/msgpipeline/msgpipeline.go:352-371 | Succeeds exactly if every target of the block has a delivery or starts, and accepts the address; then each has accepted it once more on behalf of the original recipient |
| `Pipeline.PipelineDelivery.OfferAll` | internal/msgpipeline/msgpipeline.go:341-372 | The addresses of a block are traced and offered in order, all of them exactly if all targets are willing, the first of them otherwise |
| `Pipeline.PipelineDelivery.ApplySource` | internal/msgpipeline/msgpipeline.go:298-305 | The source's modifiers are applied to every address, and their answers joined in order |
| `Pipeline.PipelineDelivery.AddRcpt` | internal/msgpipeline/msgpipeline.go:280-376 | Succeeds if and only if nothing is refused and all targets of all leads are willing; then the recipient is traced to exactly the addresses that global, source and block modifiers lead to and the deliveries gain exactly those; on failure it is traced to the first of them; the map of original recipients always translates an address to the last recipient rewritten to it |
| `Offers.AcceptedGains` | internal/msgpipeline/msgpipeline.go:341-372 | What an accepted recipient adds: every target gains the addresses that the leads have for it, in order and as often as it is listed, all on behalf of that recipient, and no other target is started |
| `Offers.SourcedInOrder` | internal/msgpipeline/msgpipeline.go:298-305 | The addresses to route come in the order of those that they were made from |
| `Pipeline.PipelineDelivery.SetStatusAll` | internal/msgpipeline/msgpipeline.go:452-458 | Every recipient of every delivery is told of the failure, once for each address accepted for it, and nobody else |
| `Pipeline.PipelineDelivery.DeliverTo` | internal/msgpipeline/msgpipeline.go:486-501 | A target's own reports are translated one by one; a failed delivery is reported to each of its recipients; a successful one to nobody |
| `Pipeline.PipelineDelivery.BodyNonAtomic` | internal/msgpipeline/msgpipeline.go:451-502 | Every delivery is visited once; the statuses are, target by target, its own reports under the names of the recipients, or a failure for each of its recipients if it failed as a whole, and nothing else; if the message does not reach the targets, a failure for all; whoever is named was presented by the client |
| `Pipeline.PipelineDelivery.Body` | internal/msgpipeline/msgpipeline.go:378-427 | Succeeds exactly if the message gets past checks and modifiers and every delivery takes the body; no delivery is called otherwise, and none after one that failed |
| `Pipeline.PipelineDelivery.Commit` | internal/msgpipeline/msgpipeline.go:504-514 | Each delivery is committed at most once; success means all are, and after the first failure no other is |
| `Pipeline.PipelineDelivery.Abort` | internal/msgpipeline/msgpipeline.go:530-542 | Every delivery is aborted exactly once, whatever the others answer |
| `Statuses.HeardMeaning` | internal/msgpipeline/msgpipeline.go:486-501 | The client hears a status if and only if a target that failed as a whole has that recipient, or a target reported on an address under which that recipient is named |
| `Statuses.HeardInAnyOrder` | internal/msgpipeline/msgpipeline.go:486-501 | In whatever order the map of deliveries is walked the client hears the same statuses, equally often |
| `PoolInvariant.KeepReceive` | internal/smtpconn/pool/pool.go:131-153 | Receiving without the lock, in any state, keeps the invariant |
| `PoolInvariant.KeepRemove` | internal/smtpconn/pool/pool.go:114-127 | Removing, closing and starting to drain a bucket keeps the invariant; its channel was open |
| `PoolInvariant.KeepSeal` | internal/smtpconn/pool/pool.go:92-102 | Closing a channel that stays in the map until it is empty keeps the invariant |
| `PoolInvariant.KeepSend` | internal/smtpconn/pool/pool.go:188-194 | The channel that `Return` sends to is open, and the connection is in no channel yet |
| `PoolInvariant.KeepShut` | internal/smtpconn/pool/pool.go:197-211 | By the end of `Close` the map is empty and no channel is left open |
| `PoolConservation.StepKeeps` | internal/smtpconn/pool/pool.go:88-211 | Every step of every thread keeps the invariant |
| `PoolConservation.NeverPanics` | internal/smtpconn/pool/pool.go:88-211 | Over every interleaving no channel is closed twice or sent to after it was closed |
| `PoolConservation.InOneChannelOfItsKey` | internal/smtpconn/pool/pool.go:88-211 | A connection in the pool is in exactly one position of one channel, of the key it was last returned under |
| `PoolConservation.NoneStranded` | internal/smtpconn/pool/pool.go:88-211 | A removed channel that is not empty is closed and being emptied; after `Close`, once all calls are over, every channel is empty |
| `PoolConservation.HandedOutUnderItsKey` | internal/smtpconn/pool/pool.go:105-154 | `Get` hands out a pooled connection only under the key it was returned under, and it is then in no channel |
| `PoolReuse.GetDecides` | internal/smtpconn/pool/pool.go:105-127 | Over all runs: without a bucket `Get` only makes a connection; a bucket at most the lifetime old is left alone and read next; an older one is closed and removed from the map with all its connections, and emptied next |
| `PoolReuse.YoungIsReused` | internal/smtpconn/pool/pool.go:105-154 | After any run, `Get` and a receive give the first connection that waits in a young bucket, and change nothing else |
| `PoolReuse.ReceivingTakesFirst` | internal/smtpconn/pool/pool.go:131-153 | The receive loop takes the first connection, hands it out exactly if it is usable and itself not too old, closes it otherwise, and makes a connection only when the bucket is empty |
| `PoolReuse.OldIsThrownAway` | internal/smtpconn/pool/pool.go:114-127 | Until the call that found an old bucket has emptied it, whatever other threads do, the call does nothing else and the channel stays closed and out of the map |
| `PoolReuse.OldNeverHandedOut` | internal/smtpconn/pool/pool.go:114-127 | That call hands out no connection that existed, only a new one at its end |
| `PoolReuse.DrainingHandsNoneOut` | internal/smtpconn/pool/pool.go:121-127 | Each connection that the call finds in the bucket is closed |
| `PoolReuse.ReturnDecides` | internal/smtpconn/pool/pool.go:156-180 | A closed pool drops the connection; otherwise buckets are swept first exactly if the key is new and the number of keys is the configured one |
| `PoolReuse.KeptIffRoom` | internal/smtpconn/pool/pool.go:181-194 | A new bucket is used now and an existing one keeps its time; the connection becomes the last one of the bucket if and only if there is room, and is closed if not |
| `PoolReuse.SweepRemovesOld` | internal/smtpconn/pool/pool.go:88-211 | When a sweep of `CleanUp`, `Return` or `Close` is over, whatever other threads did meanwhile, a bucket that was old at its start is gone, one not even old at its end is as it was, and there is no other; after `Close` there is none |
| `PoolReuse.SweepLooksAtAll` | internal/smtpconn/pool/pool.go:88-92 | `CleanUp` and `Close` hold the lock and look at every key |
| `PoolReuse.EmptyingClosesAll` | internal/smtpconn/pool/pool.go:97-101 | Emptying a bucket closes one connection after the other until there is none |
| `PoolReuse.BucketKeepsItsAge` | internal/smtpconn/pool/pool.go:181-194 | Over any stretch of a run a bucket keeps the time of use it was made with |
| `PoolConservation.MovesInOrder` | internal/smtpconn/pool/pool.go:88-211 | A connection leaves a caller by `Return` only, and one that was closed is never given out, sent or closed again |
| `Modules.Hooks.AddHook` | framework/hooks/hooks.go:75-80 | The hook goes to the end of its event's list, and other events keep theirs |
| `Modules.Hooks.RunHooks` | framework/hooks/hooks.go:49-73 | Hooks run in the reverse of the order in which they were added |
| `Registration.Registry.RegisterModules` | cmd/sirrmeshd/cmd/mail.go:380-437 | Succeeds if and only if there is an endpoint, all modules are known and can be made, and no name is given twice; then every block is found under its name and its aliases, no other name leads anywhere, and an alias gives the same as its name |
| `Registration.Registry.RegisterBlock` | cmd/sirrmeshd/cmd/mail.go:406-431 | A block is registered exactly if its name and its aliases are new |
| `Registration.Registry.HasInstance` | framework/module/instances.go:59-67 | A name or alias that leads to a block |
| `Modules.Registry.Get` | framework/module/instances.go:74-105 | The mutating walk refines the functional one: same result, same error, same set of initialised instances, hooks and logs |
| `Modules.Registry.Init` | framework/config/module/modconfig.go:71-105 | Initialising an object resolves its references in order and adds its hook last |
| `Modules.Registry.Reference` | framework/config/module/modconfig.go:107-156 | A reference is resolved by name or by initialising an inline module |
| `Modules.Registry.InitAll` | cmd/sirrmeshd/cmd/mail.go:439-466 | All endpoints are initialised in order, then the first uninitialised block is reported |
| `Modules.Registry.Shutdown` | framework/hooks/hooks.go:67-73 | Objects are closed in the reverse of the order in which their initialisation ended |
| `ModuleGraph.ObjectOrdered` | framework/module/instances.go:74-105 | An initialisation that succeeds finishes exactly what paths lead to through blocks that had not begun, besides what had begun before; and it keeps the order of hooks, marks and logs |
| `ModuleGraph.InitializedIffUsed` | framework/module/instances.go:74-105 | When initialisation succeeds, an instance is initialised if and only if an endpoint reaches it |
| `ModuleStart.StartsIff` | cmd/sirrmeshd/cmd/mail.go:439-456 | The endpoints initialise if and only if every object that one of them reaches exists, fits wherever it is referred to, and itself initialises; cycles are no obstacle |
| `ModuleStart.NameLeadsToItsBlock` | framework/module/instances.go:74-105 | A name that is no alias leads to the block of that name, and is unknown if there is none |
| `ModuleStart.AliasIsSameIff` | framework/module/instances.go:51-57 | An alias gives the same as the name it stands for, in every state, if and only if that name is not an alias itself or neither block exists |
| `ShutdownOrder.UnusedIffUnreachable` | cmd/sirrmeshd/cmd/mail.go:457-466 | An unused block is reported if and only if some registered block is unreachable, and it is one |
| `ShutdownOrder.InitializedAtMostOnce` | framework/module/instances.go:88-105 | Even with circular references no object is initialised twice |
| `ShutdownOrder.ClosedBeforeWhatItReaches` | framework/module/instances.go:74-105 | A closable object that lies on no cycle is closed exactly once and strictly before every closable object it reaches, whatever cycles there are elsewhere |
| `ShutdownOrder.FinishesLastIff` | framework/module/instances.go:74-105 | Of two objects, the one that begins first finishes last if and only if, when it begins, a path leads from it to the other through blocks that have not begun |
| `ShutdownOrder.ClosedFirstIff` | framework/hooks/hooks.go:67-80 | With or without cycles, which of two closable objects is closed first: exactly when the first to begin leads to the other in that sense, or the second to begin is not led to |
| `ShutdownOrder.AcyclicClosesInOrder` | cmd/sirrmeshd/cmd/mail.go:439-454 | Without reference cycles, every closable module or endpoint is closed strictly before every closable module it reaches |
| `ShutdownOrder.OnACycleClosedLate` | framework/module/instances.go:74-105 | A configuration in which an object on a cycle is closed after one that it reaches and that does not reach it |
| `Address.SplitMeaning` | framework/address/split.go:36-55 | `Split` succeeds exactly on addresses with two nonempty sides of the last `@` or on postmaster, its parts join to the address, and each error is reported exactly under its own condition |
| `Address.SplitOfJoin` | framework/address/split.go:36-55 | Splitting a mailbox, `@` and a domain without `@` gives back both |
| `Address.PostmasterIsAccepted` | framework/address/split.go:37-39 | `postmaster`, in any case, splits into itself and no domain |
| `Address.QuoteMbox` | framework/address/split.go:113-132 | The loop gives a form that unquotes to the mailbox, and that is valid exactly when the mailbox has no control characters |
| `Address.UnquoteMbox` | framework/address/split.go:58-103 | The loop with its flags computes the fold of one scanner step, with the same errors; `AddressMeaning.UnquotesIff` and `FaultIff` say what that is |
| `Address.UnquoteUndoesQuote` | framework/address/split.go:58-132 | Unquoting the quoted form of any nonempty local part gives that local part |
| `AddressMeaning.UnquotesIff` | framework/address/split.go:58-103 | Which local parts are accepted and what they unquote to: bare text, or bare text followed by a quote and quoted characters, with the closing quote or without it |
| `AddressMeaning.FaultIff` | framework/address/split.go:66-91 | Which fault is reported, exactly: a backslash or an at-sign after bare text only, or anything behind the closing quote |
| `AddressMeaning.QuotesOnlyIfNeeded` | framework/address/split.go:113-132 | A local part is left alone if and only if all its characters may stand without quotes or are control characters; otherwise two quotes are added, and a backslash for each quote and backslash |
| `Address.ValidMailboxName` | framework/address/validation.go:68-110 | The loop accepts exactly the valid mailboxes |
| `Address.QuotedFormValid` | framework/address/validation.go:68-110 | The quoted form is valid if and only if the local part has no ASCII control characters |
| `Address.AddressRoundTrip` | framework/address/split.go:36-132 | The quoted form plus `@` plus a domain splits into both, and unquotes to the local part |

## Left out

- Network, TLS, DNS, SQL, LDAP, PAM, subprocess and HTTP code: thin wrappers over libraries that are not part of the repository.
- Normalisation of addresses (IDNA, NFC, PRECIS) and the public suffix list: uninterpreted functions.
- Macros embedded in longer arguments and environment variables in configuration: an uninterpreted function, because they depend on the regular expression engine. Whole-argument macros are modelled.
- `config.Map`, the command line, logging, metrics, password hashing, DKIM keys and delivery status notifications: plumbing or input and output.
- Read errors while lexing, and the file and line fields of nodes: they only serve messages.
- Macro expansion rewrites a node in place in the source; the model returns the new node. Nothing else refers to the node at that time.
- Sessions, `Group`, `MultiLimit`, `Semaphore`, `Rate` and the pool are step systems on values rather than classes, because their properties are about interleavings; update in place and aliasing of these objects are not captured.
- Which of two waiting takers gets a free slot first, and how long anybody waits.
- MAIL while a transaction is open: the model assumes that it does not reach the session, because the order of commands is the business of the SMTP library, which is not part of this model.
- Negative sizes of semaphores and token buckets: the source panics when it makes such a channel, although a comment says that a negative semaphore does nothing (internal/limits/limiters/concurrency.go:26-34).
- Destination limits (internal/limits/limits.go:119-127, 198-222): not part of a session's accounting.
- An overfull bucket set, which answers with no limiter (internal/limits/limiters/bucket.go:101-103): `Take` states it, and the accounting theorems assume at most as many keys as buckets.
- The ordering of header fields that checks add: it depends on the finishing order.
- Closing of check states on failure and at the end: a failed installation closes states that stay installed (internal/msgpipeline/check_runner.go:74-78), so exactly-once closing does not hold.
- Recipient and body checks before any sender check: the pipeline always starts with the sender.
- Nested pipelines, which share the map of original recipients.
- What makes a pooled connection say that it is usable, and when it was last used: the answers are arbitrary.
- Connections returned after the pool was closed are dropped without being closed (internal/smtpconn/pool/pool.go:160-162): the model records them as dropped.
- The meaning of imports inside snippets when files are imported too: a file may redefine snippets, and an import in a snippet's body sees the table as it is after the whole pass that put the body in, so the meaning is the order of the passes itself. `ImportFiles` says what one imported file contributes; the results of `ImportMeaning` are for trees and snippets none of whose imports finds a file; termination, idempotence and independence from the depth hold with files too.
- Lexer.AllTokens: gives no tokens for an empty input, where the source reports the end of the file as an error while loading (framework/config/lexer/lexer.go:64-81).
