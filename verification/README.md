# FreeIPA shared library: a verified model

This project models the algorithms and state machines at the core of FreeIPA's shared library and proves what they keep, undo and preserve. Each Dafny module follows one part of the Python or C code; a member that works by changing things step by step is a method proved against a specification function, and the laws are lemmas about that function.

| part of FreeIPA | modules |
|---|---|
| command parameters: ordering, defaults, arguments and options, auditing | `Params`, `ParamLaws`, `ParamOrder`, `Defaults`, `CallArgs`, `Audit` |
| RPC: negotiation, failover, wire encodings, type dispatch | `Negotiate`, `Failover`, `Wire`, `Dispatch` |
| printers and parsers: access control instructions, distinguished names | `AciText`, `Aci`, `AciLayout`, `AciWritten`, `AciObject`, `DnPrint` |
| in-place C code: SRV ordering, key filtering | `SrvOrder`, `KeyFilter` |
| stores and registries: backups, environment, plugins, domain search | `BackupStore`, `EnvValue`, `EnvRun`, `EnvLaws`, `EnvTables`, `EnvUnion`, `EnvValues`, `EnvFinal`, `EnvPlaceholders`, `EnvObject`, `Registry`, `DomainSearch` |

`dafny verify dfyconfig.toml` checks the whole project.

## What turned out

Several promises of the code hold only under a condition. The model keeps the code as it is, proves the exact condition and gives an input that fails.

- The insertion that builds `params_by_default` is not a topological sort. It respects the dependencies exactly when no parameter uses itself and none is declared after both a source and a user of it while that user already stands at or before the source (`OrderRespectsIff`; declaring a, c, b with "a uses b" and "b uses c" fails, `ChainOutOfOrder`).
- Splitting and merging parameters is the identity exactly when no lone value sits in a fully positional multivalue argument; such a value comes back as a 1-tuple (`CallArgs.RoundTripIff`).
- A returned value that fails output validation leaves the audit mark set, and no later call of the same thread context is recorded until one of the same name completes (`BadOutputLeavesMark`, `StuckMarkSuppresses`). A server destroys the context after each request (ipaserver/rpcserver.py:341 and 792, ipalib/backend.py:150), so there the loss ends with the request (`StuckMarkEndsWithRequest`).
- `dn2str` does not escape backslashes. A name can be read back exactly when every backslash in a value is followed by a character that the printer escapes and that does not separate parts (`Dn2StrInvertibleIff`; the value a, backslash, b fails, `BackslashLost`). For the same reason a final space is printed escaped exactly when an even number of backslashes precedes it in the value (`FinalSpaceEscapedIff`; a, backslash, space fails, `BareFinalSpace`).
- The type-dispatch cache is invisible exactly when no class can be served by a cached class that its own lookup would meet before its initial handler (`TransparentIff`, `CacheShows`).
- A dictionary that uses one of the marker keys is mistaken for an encoded value, by JSON for three markers and by XML for one (`JsonFaithfulIff`, `XmlFaithfulIff`, `MarkersAreMistaken`); the two transports agree on such a dictionary exactly when both take it for the same DNS name (`TransportsAgreeIff`).
- `forward` binds the command to the connection before its retry loop, so every retry goes to the old connection although a new one was opened (`ForwardRetries`).
- A request cut short during negotiation leaves its security context behind, and the next request fails on a reply that a clean transport would parse (`LeftPendingIff`, `StaleParsesIff`, `StaleContextFails`).
- Two equal files of one base name in different directories share one backup copy: the second is never tracked and its restore fails (`SecondDirectoryIsDropped`).
- A plugin class accepted twice under one full name makes its chain of predecessors endless; otherwise the chain is the history (`ChainEndsIff`, `ChainIsHistory`), as it is when every call brings a class of its own (`DifferentClassesEnd`). Two spellings of one version make the default depend on the order of a set (`OrderIndependentIff`, `SpellingsTie`).
- Printing and parsing a valid access control instruction whose names, targets and bind rule fit the patterns (`Printable`) drops repeated permissions and attributes and quotes in the bind expression, and nothing else (`ParseExported`, `RoundTripIff`).
- When every key is rejected, `filter_keys` returns 0 and leaves the old key count in place (`FilterKeys`).
- The defaults of `constants.py` hold placeholders that are documented never to be used. One is reached exactly when `_finalize_core` gets to the defaults with a variable of `_bootstrap` missing; that takes a caller who catches the error of `_bootstrap` and goes on (`PlaceholderReachedIff`, `NeverReached`, `PlaceholderReached`).

Where the documentation and the code disagree the model follows the code.

## Foreign effects

DNS answers, server replies, GSSAPI steps, random draws, the results of `qsort`, the order in which a set is iterated, parsed URIs, configuration files and paths are parameters, so each result holds for all of them. Callbacks of parameters are arbitrary functions that may raise. A SHA-256 digest is represented by the content it was taken of. The text codecs for timestamps, names, decimals and base64 are assumed lossless (`Wire.Lossless`). Weights and draws are reals.

## Model

| member | source | states |
|---|---|---|
| `ParamOrder.EarliestUser` | ipalib/frontend.py:952-961 | the insertion point: the first placed parameter that uses the newcomer, or the end |
| `ParamOrder.FindByName` | ipalib/frontend.py:958-961 | the index of the first parameter of a name, or the length when it has not been placed |
| `ParamOrder.FindPosition` | ipalib/frontend.py:952-961 | the inner loop over all declarations finds the first placed user |
| `ParamOrder.OrderByDefault` | ipalib/frontend.py:950-963 | the insertion loop computes the specified order |
| `ParamOrder.PlacementRealisesPrecedes` | ipalib/frontend.py:950-962 | two parameters stand in the result in the order given by a relation read off the declarations alone |
| `ParamOrder.OrderIsPermutation` | ipalib/frontend.py:950-963 | `params_by_default` is a permutation of args plus options |
| `ParamOrder.SourceBeforeUser` | ipalib/frontend.py:950-962 | a source precedes its user exactly when no later parameter pulls the user in front of it |
| `ParamOrder.OrderRespectsIff` | ipalib/frontend.py:947-963 | every source precedes its users if and only if nothing uses itself and there is no late middle |
| `ParamOrder.MiddlesDeclaredInTime` | ipalib/frontend.py:947-963 | a sufficient condition on the declarations: no parameter follows both a source and a user of it |
| `ParamOrder.NoChains` | ipalib/frontend.py:947-963 | the dependencies are respected when no parameter with `default_from` is itself a source |
| `ParamOrder.AlreadyOrdered` | ipalib/frontend.py:947-963 | a declaration order that respects the dependencies is kept respectful |
| `ParamOrder.ChainOutOfOrder` | ipalib/frontend.py:950-963 | the declaration a, c, b of a chain comes out as b, a, c |
| `ParamLaws.BecomesIff` | ipalib/parameters.py:777-861 | which value a supplied one becomes, stated through the normalizer and `_convert_scalar` alone: members in order, null ones left out, texts left alone where conversion is off |
| `ParamLaws.FailsIff` | ipalib/parameters.py:839-861 | the error raised is that of the first member that is not null and cannot be converted |
| `ParamLaws.DefaultGivenIs` | ipalib/parameters.py:964-971 | the default is what the value of the callback becomes; the static one if there is no `default_from`, a source is None, the callback raises or returns None, or conversion fails |
| `ParamLaws.ValidateIff` | ipalib/parameters.py:873-897 | a missing value is refused if and only if it is required; any other is accepted if and only if it is not deprecated and every member passes the rules |
| `ParamLaws.ValidateAllRaises` | ipalib/parameters.py:894-895 | the error is that of the first member that has one |
| `Defaults.CollectNeeded` | ipalib/frontend.py:800-806 | the backward pass computes the needed names |
| `Defaults.NeededIsLeast` | ipalib/frontend.py:800-806 | the needed names lie in every set closed under the sources of requested and needed parameters |
| `Defaults.NeededIsClosed` | ipalib/frontend.py:800-806 | along a respectful order one backward pass reaches a closed set |
| `Defaults.ResolveNeeded` | ipalib/frontend.py:811-828 | what happens to a needed parameter: the call, its validation, the new keywords and the default found |
| `Defaults.ForwardRound` | ipalib/frontend.py:808-837 | one round of the forward pass, for any order: the new keywords and the answer, or the error |
| `Defaults.RoundAgrees` | ipalib/frontend.py:808-837 | along a respectful order a round agrees with recursive evaluation, in values and in failures |
| `Defaults.RoundsAgree` | ipalib/frontend.py:808-837 | and so does the whole forward pass |
| `Defaults.GetDefaults` | ipalib/frontend.py:794-837 | both passes, for any order; along a respectful one they return the defaults of plain recursive evaluation, or its first failure, and those defaults are what the callbacks, normalizers and conversions give |
| `Defaults.ReferenceIs` | ipalib/frontend.py:830-837 | the answers hold, for each requested parameter, the default its callbacks give unless that is None, and nothing else |
| `Defaults.EvaluateIs` | ipalib/parameters.py:620-628 | the value of a parameter is what the supplied one becomes, or else its default; a failure is one of conversion |
| `Defaults.SourceIs` | ipalib/parameters.py:264-266 | a source of a default is the value of the parameter of that name |
| `Defaults.ForeignSourceIs` | ipalib/parameters.py:264-266 | a source that names no parameter is the raw keyword, or None |
| `Defaults.EvaluationSolves` | ipalib/parameters.py:620-628 | recursive evaluation solves the equations between the parameters |
| `Defaults.SolutionIsUnique` | ipalib/parameters.py:964-971 | along a respectful order those equations have no other solution |
| `Defaults.SameEvaluation` | ipalib/frontend.py:808-837 | two respectful orders give each parameter the same value and default |
| `Defaults.OrderIrrelevant` | ipalib/frontend.py:794-837 | whichever respectful order is used, the same call fails or returns the same defaults |
| `Defaults.CommandDefaults` | ipalib/frontend.py:950-963 | a finalized command computes recursive evaluation whenever its declarations have no late middle |
| `CallArgs.CheckArgs` | ipalib/frontend.py:994-1015 | accepts exactly the argument lists with required before optional and at most the last multivalue |
| `CallArgs.Leading` | ipalib/frontend.py:679-689 | the arguments passed by position are those before the first gap |
| `CallArgs.ParamsToOptions` | ipalib/frontend.py:693-696 | the declared options of the map |
| `CallArgs.Split` | ipalib/frontend.py:672-691 | the split: leading arguments by position, the rest of the declared parameters as options |
| `CallArgs.PopDeclared` | ipalib/frontend.py:646-649 | the declared names are moved out of the options |
| `CallArgs.OptionsToParams` | ipalib/frontend.py:646-654 | the declared options, or an error when an unknown one remains |
| `CallArgs.ArgsToParams` | ipalib/frontend.py:630-644 | the values by position, the last multivalue argument taking the rest, and the assertion against a filled multivalue argument before the last |
| `CallArgs.Merge` | ipalib/frontend.py:613-628 | the merge with each of its errors, in order: too many arguments, unknown option, misplaced multivalue argument, overlap |
| `CallArgs.PositionalEndsUp` | ipalib/frontend.py:630-644 | where each positional value ends up: in its argument, or in order in the tuple of the multivalue argument |
| `CallArgs.SplitIsAccepted` | ipalib/frontend.py:613-628 | merging what was split never raises, gaps among the arguments included |
| `CallArgs.SplitAndMerge` | ipalib/frontend.py:672-696 | split then merge returns the map with a lone final value made a tuple, so what went in if and only if there is no such value |
| `CallArgs.RoundTripIff` | ipalib/frontend.py:613-654 | that map is the original if and only if no lone value sits in a fully positional multivalue argument |
| `CallArgs.RoundTripSettles` | ipalib/frontend.py:613-654 | a second round trip changes nothing |
| `Audit.Session.AuditToJournal` | ipalib/frontend.py:479-482 | a record is written and the mark cleared only for the marked command |
| `Audit.Session.DoCall` | ipalib/frontend.py:537-563 | a call with its nested calls takes the specified run, and raises exactly when something failed |
| `Audit.JournalGrows` | ipalib/frontend.py:479-512 | no call removes or changes a record |
| `Audit.MarkedCall` | ipalib/frontend.py:539-541 | under a mark a call tree without that name changes nothing, and any other writes a record |
| `Audit.TopLevelIff` | ipalib/frontend.py:537-563 | exactly one record, written by the root with its status, and a cleared mark, if and only if the root completes and no descendant shares its name |
| `Audit.BadOutputLeavesMark` | ipalib/frontend.py:559-562 | a result that fails output validation leaves no record and the mark set |
| `Audit.StuckMarkSuppresses` | ipalib/frontend.py:539-541 | after that later calls of the same context go unrecorded exactly as long as none bears the name |
| `Audit.StuckMarkEndsWithRequest` | ipaserver/rpcserver.py:335-341 | a request that ends with the mark set costs its own record and no record of the requests after it |
| `Audit.RequestsAreLogged` | ipalib/backend.py:143-150 | over every sequence of requests of clean calls the journal is exactly their log |
| `Audit.CallIsLogged` | ipalib/frontend.py:537-563 | a clean call tree appends exactly its log |
| `Audit.RecordSays` | ipalib/frontend.py:544-562 | the one record of a clean call says SUCCESS if it returned and names the exception otherwise |
| `Audit.RecordedIff` | ipalib/frontend.py:544-562 | a root with silent calls is recorded if and only if it raised or its output is valid; otherwise the mark stays |
| `Audit.SessionIsLogged` | ipalib/frontend.py:537-563 | over every session of clean calls the journal is exactly their log |
| `Negotiate.KerbTransport.RemoveExtraHeader` | ipalib/rpc.py:480-484 | the first header of a name goes, the others stay in order |
| `Negotiate.KerbTransport.SetAuthHeader` | ipalib/rpc.py:520-530 | the Authorization header is replaced, or only removed for an empty token |
| `Negotiate.KerbTransport.GetAuthInfo` | ipalib/rpc.py:486-518 | a cookie if allowed and present, otherwise a new security context and its first token |
| `Negotiate.KerbTransport.CompleteAuth` | ipalib/rpc.py:532-557 | whether the exchange is done, goes on or fails, and the context it leaves |
| `Negotiate.KerbTransport.Exchange` | ipalib/rpc.py:586-609 | what one reply leads to |
| `Negotiate.KerbTransport.SingleRequest` | ipalib/rpc.py:562-609 | the whole loop: headers of each send, outcome and what is left behind; the sends are those read off the inputs |
| `Negotiate.SendsAre` | ipalib/rpc.py:486-609 | exactly which sends are made and what each carries: the given headers in order, the cookie's value first, then the token of the step that led to the send |
| `Negotiate.WithoutFirst` | ipalib/rpc.py:480-484 | only the first header of the name is removed |
| `Negotiate.SendsCarryOneEach` | ipalib/rpc.py:480-557 | every send carries at most one Cookie and at most one Authorization header |
| `Negotiate.SendsAreBounded` | ipalib/rpc.py:562-609 | at most one send with the cookie plus one per security-context step that returned |
| `Negotiate.ParsedOnlyWhenAuthenticated` | ipalib/rpc.py:606-609 | a response is parsed only on status 200, after the cookie alone or after the context completed |
| `Negotiate.CookieOnlyOnce` | ipalib/rpc.py:494-500 | the cookie goes out with the first send and with no other |
| `Negotiate.LeftPendingIff` | ipalib/rpc.py:532-623 | a request leaves a context pending, and ends as it does, exactly as read off the cookie, the first step and the first reply that ends the negotiation |
| `Negotiate.StaleParsesIff` | ipalib/rpc.py:532-557 | with a pending context a request with a cookie is parsed if and only if the first reply that ends the negotiation completes it with status 200 |
| `Negotiate.StaleContextFails` | ipalib/rpc.py:533-547 | a pending context makes a request fail on a reply that a clean transport parses |
| `Failover.GetUrlList` | ipalib/rpc.py:767-778 | the list is the discovered URLs with the configured one moved to the front |
| `Failover.ConfiguredFirst` | ipalib/rpc.py:772-776 | the configured URL is first, the others keep their counts, and it occurs once exactly when discovery listed it at most once |
| `Failover.OthersInOrder` | ipalib/rpc.py:772-778 | the other servers keep the order in which DNS listed them |
| `Failover.TryUrl` | ipalib/rpc.py:925-989 | the tries of one URL end the search or hand over to the next URL |
| `Failover.CreateConnection` | ipalib/rpc.py:921-992 | the search takes the specified course; a single URL is handed out without a ping |
| `Failover.PingsInOrder` | ipalib/rpc.py:921-992 | the pings are a prefix of the list with at most one repetition, hence at most one more than there are URLs |
| `Failover.FirstAnswerWins` | ipalib/rpc.py:943-992 | a connection is the first that answers, and none is found only after every URL has failed |
| `Failover.ConnectIs` | ipalib/rpc.py:921-992 | exactly which URLs are pinged, when a ping ends the search, how it ends, and when the session cookie is dropped |
| `Failover.RpcClient.HandleResponse` | ipalib/rpc.py:1027-1071 | what a response leads to: an ending, or a dropped cookie and a new connection |
| `Failover.RpcClient.Forward` | ipalib/rpc.py:1017-1074 | the retry loop takes the specified course, and the calls, the pings, the context left and the ending are those read off the inputs |
| `Failover.ForwardIs` | ipalib/rpc.py:1017-1074 | a call is followed by another if and only if it had a cookie, met a 401, was not the fifth and reconnecting found a server; which cookie each call has; how it ends, read off the last call |
| `Failover.ForwardRetries` | ipalib/rpc.py:1018-1074 | at most five calls, all on the connection bound at the start, each retry after a 401 on a call with a cookie |
| `Failover.NoCookieNoSecondRetry` | ipalib/rpc.py:1045-1067 | when the store yields no new cookie there is at most one retry |
| `Wire.JsonPrimer.EncDatetime` | ipalib/ipajson.py:97-106 | the encoding of a timestamp for the client version, with a cached capability |
| `Wire.JsonPrimer.EncDnsname` | ipalib/ipajson.py:108-117 | the encoding of a DNS name for the client version, with a cached capability |
| `Wire.JsonPrimer.EncList` | ipalib/ipajson.py:125-131 | the encoding of a list, item by item |
| `Wire.JsonPrimer.EncDict` | ipalib/ipajson.py:133-138 | the encoding of a dictionary, key by key |
| `Wire.JsonPrimer.Convert` | ipalib/ipajson.py:92-95 | the encoding of a value tree is that of the pure recursion, whatever the caches hold |
| `Wire.JsonFaithfulIff` | ipalib/ipajson.py:161-178 | JSON delivers a value, up to documented conversions, if and only if no dictionary in it has a marker key |
| `Wire.XmlFaithfulIff` | ipalib/rpc.py:191-232 | XML delivers a value if and only if it has no marker dictionary and no integer beyond 32 bits |
| `Wire.XmlDelivers` | ipalib/rpc.py:191-232 | what XML delivers for any value without a marker dictionary: integers beyond 32 bits arrive as their text |
| `Wire.ByVersion` | ipalib/capabilities.py:50-73 | timestamps arrive as such from version 2.84 on and DNS names from 2.88 on, by both transports, and as texts before |
| `Wire.TransportsAgree` | ipalib/rpc.py:253-275 | both transports deliver the same value up to lists being tuples, for every client version |
| `Wire.TransportsAgreeIff` | ipalib/rpc.py:253-275 | exactly which values both transports deliver as the same: no integer out of range, no dict that JSON alone takes for bytes or a time, and a dict taken for a DNS name only if both read the same name |
| `Wire.SecondTripIsIdentity` | ipalib/ipajson.py:161-178 | what has been through JSON once comes through unchanged |
| `Wire.MarkersAreMistaken` | ipalib/ipajson.py:166-172 | values that one transport or both take for something else |
| `Dispatch.Primer.Stored` | ipalib/ipajson.py:92-95 | the handler stored for a class |
| `Dispatch.Primer.Missing` | ipalib/ipajson.py:79-90 | the search by resolution order, then by virtual ancestry, and the entry it adds |
| `Dispatch.Primer.Get` | ipalib/ipajson.py:79-95 | a lookup answers from the table or by searching and filling it |
| `Dispatch.ServedByItself` | ipalib/ipajson.py:92-95 | a class in the table is served by its own entry |
| `Dispatch.ServedInMro` | ipalib/ipajson.py:79-90 | any other class is served by the first class of its resolution order that is in the table |
| `Dispatch.ServedVirtually` | ipalib/ipajson.py:79-90 | if there is none, by the first entry it is a virtual subclass of, and by nothing if there is none of those either |
| `Dispatch.TransparentIff` | ipalib/ipajson.py:79-90 | over every sequence of lookups the cache is invisible if and only if the hierarchy is stable |
| `Dispatch.SingleAncestorStable` | ipalib/ipajson.py:79-90 | it is invisible when no class outside the table has two initially registered ancestors |
| `Dispatch.CacheShows` | ipalib/ipajson.py:79-90 | a hierarchy over two unrelated registered classes in which asking for one class first changes the handler of another |
| `AciText.UniqueList` | ipalib/aci.py:95-107 | the loop keeps each item once, in order of first occurrence |
| `AciText.UniqueIsUnique` | ipalib/aci.py:95-107 | the result has no duplicates and the same members |
| `AciText.UniqueExtends` | ipalib/aci.py:95-107 | items are kept in the order in which they first occur |
| `AciText.SplitJoin` | ipalib/aci.py:166-168 | splitting at a comma undoes joining with it |
| `AciText.SplitAttrsJoin` | ipalib/aci.py:142-147 | splitting an attribute list undoes joining it with bars |
| `AciText.SplitAttrsAt` | ipalib/aci.py:142-147 | an attribute list splits at any run of other characters |
| `AciText.NameToken` | ipalib/aci.py:120-128 | a name followed by a space is one token |
| `AciText.QuoteToken` | ipalib/aci.py:120-137 | a quoted text is one token, whatever it holds but quotes |
| `AciText.WordToken` | ipalib/aci.py:120-137 | a word ends at a space, which goes with it, at a mark, which is left for the next token, or at the end |
| `AciText.QuotedToken` | ipalib/aci.py:120-137 | a text between quotes of one kind is one token; without its second quote it is none |
| `AciText.BlankSkipped` | ipalib/aci.py:120-137 | space before a token is skipped |
| `AciText.CommentSkipped` | ipalib/aci.py:120-137 | a comment is skipped with its line |
| `AciText.WordAcrossComment` | ipalib/aci.py:120-137 | a comment inside a word is skipped and the word goes on in the next line |
| `AciLayout.LaidOutGroup` | ipalib/aci.py:127-140 | however it is laid out, with or without spaces and quotes, a target parses to its key, operator and value |
| `AciLayout.LaidOutTargets` | ipalib/aci.py:125-151 | and so do targets one after the other |
| `AciLayout.SetOldTarget` | ipalib/aci.py:142-151 | a key that is there keeps its place and takes the new rule |
| `AciLayout.GroupIff` | ipalib/aci.py:127-140 | a target is accepted if and only if its tokens are key, operator in one or two tokens, value and closing parenthesis; otherwise the text ran out or is refused |
| `AciLayout.UnboundIff` | ipalib/aci.py:125-142 | the error for a missing parenthesis is raised if and only if the first token is not one |
| `AciWritten.BindFormReads` | ipalib/aci.py:35-36 | the third pattern reads every bind rule of its form, whatever the space; parentheses that do not match are refused |
| `AciWritten.BindTaken` | ipalib/aci.py:223-232 | and only texts of that form |
| `AciWritten.PermFormReads` | ipalib/aci.py:32-32 | the second pattern reads every text of its form |
| `AciWritten.PermsTaken` | ipalib/aci.py:32-32 | and only those |
| `AciWritten.AciFormReads` | ipalib/aci.py:28-29 | the first pattern reads every instruction of its form, `aci` for `acl` included |
| `AciWritten.AciTaken` | ipalib/aci.py:28-29 | and only those, the dot of the version aside |
| `AciWritten.UpToEndIff` | ipalib/aci.py:28-29 | permissions and bind rule reach up to the last end on their line |
| `AciWritten.ParseWritten` | ipalib/aci.py:153-169 | however an instruction is written, parsing reads its parts, as long as its targets do not hold the version marker |
| `Aci.Operator` | ipalib/aci.py:129-135 | what is taken for the operator, from one token or from two, is one of the two operators, and text was consumed |
| `Aci.RuleComesBack` | ipalib/aci.py:142-151 | the printed value of a target is free of quotes and is read back as its rule, attributes listed once |
| `Aci.GroupParses` | ipalib/aci.py:127-140 | a printed target parses to its key and rule and leaves the rest of the text |
| `Aci.TargetsParse` | ipalib/aci.py:117-151 | printed targets with different keys parse back one by one, in the printed order |
| `Aci.AciMatches` | ipalib/aci.py:28-29 | the first pattern recovers the name and the text of permissions and bind rule |
| `Aci.PermsMatch` | ipalib/aci.py:32-32 | the second pattern recovers action, permission list and bind rule |
| `Aci.BindParses` | ipalib/aci.py:223-232 | the third pattern recovers keyword, operator and the expression without quotes |
| `Aci.VersionFound` | ipalib/aci.py:154-157 | the first version marker found is the one that opens the instruction |
| `Aci.UnmarkedTargets` | ipalib/aci.py:154-157 | printed targets hold the version marker only if one of their values does |
| `Aci.PermissionsComeBack` | ipalib/aci.py:166-168 | validated permissions are read back as they were listed |
| `Aci.SortedIsInOrder` | ipalib/aci.py:82-82 | the targets are printed in the order of their keys |
| `Aci.AtMostAt` | ipalib/aci.py:82-82 | keys compare as their first different characters do |
| `Aci.SortedPermutes` | ipalib/aci.py:82-82 | sorting loses and invents no target |
| `Aci.ParseExported` | ipalib/aci.py:78-93 | parsing an exported instruction gives its normal form: sorted targets, no repetitions, no quotes in the bind expression |
| `Aci.RoundTripIff` | ipalib/aci.py:153-169 | name, action, permissions, targets and bind rule all come back if and only if nothing is listed twice and the bind expression has no quote |
| `Aci.ExportedAgain` | ipalib/aci.py:78-93 | and then exporting again gives the same string |
| `AciObject.ShowList` | ipalib/aci.py:84-88 | the loop with its cut-off separator prints the attributes joined by bars |
| `AciObject.ShowTarget` | ipalib/aci.py:83-91 | one target as printed, for lists and for plain values |
| `AciObject.ACI.Validate` | ipalib/aci.py:171-192 | accepts exactly known permissions, a name, a target and a complete bind rule |
| `AciObject.ACI.ExportTargets` | ipalib/aci.py:81-91 | the loop prints the sorted targets |
| `AciObject.ACI.ExportToString` | ipalib/aci.py:78-93 | the specified text of a valid instruction, an error otherwise |
| `AciObject.ACI.ParseTarget` | ipalib/aci.py:117-151 | the token loop adds the targets of the text, or raises each of its errors with the targets gathered so far |
| `AciObject.GatheredAll` | ipalib/aci.py:117-151 | a loop that goes through has gathered what it returns |
| `AciObject.GatheredUpTo` | ipalib/aci.py:125-151 | the targets gathered are those of the groups before the failure |
| `AciObject.FailedParse` | ipalib/aci.py:153-169 | a parse that fails never touches the bind rule, and a field only once everything before it was read |
| `AciObject.ACI.SetBindrule` | ipalib/aci.py:223-232 | the bind rule is set from the text, or nothing changes and the error is raised |
| `AciObject.ACI.ParseAcistr` | ipalib/aci.py:153-169 | all fields are set from the text, or the first error is raised with the fields set before it |
| `AciObject.Reparse` | ipalib/aci.py:52-62 | an object built from the exported text of another is its normal form, and equal to it exactly when there is nothing to lose |
| `DnPrint.EscapeDn` | ipapython/dn_ctypes.py:107-122 | the loop with its two corrections at the ends prints the specified text |
| `DnPrint.ReadableReadsBack` | ipapython/dn_ctypes.py:107-122 | a readable value is recovered by dropping escapes up to the next unescaped separator |
| `DnPrint.OnlyReadableReadsBack` | ipapython/dn_ctypes.py:107-122 | and no other value is |
| `DnPrint.Dn2StrInvertibleIff` | ipapython/dn_ctypes.py:125-131 | the printed name splits back into its parts if and only if all its values are readable |
| `DnPrint.NoBackslashInvertible` | ipapython/dn_ctypes.py:125-131 | in particular when no value holds a backslash |
| `DnPrint.BackslashLost` | ipapython/dn_ctypes.py:103-105 | the value a, backslash, b does not come back |
| `DnPrint.FinalSpaceEscapedIff` | ipapython/dn_ctypes.py:107-122 | a printed final space is escaped if and only if an even number of backslashes precedes it in the value |
| `DnPrint.BareFinalSpace` | ipapython/dn_ctypes.py:119-121 | the value a, backslash, space is printed with a bare final space |
| `DnPrint.EndsAreEscaped` | ipapython/dn_ctypes.py:107-122 | no printed value starts with a bare space or number sign, and none ends with a bare space unless a backslash precedes it in the value |
| `DnPrint.EscapedAre` | ipapython/dn_ctypes.py:103-122 | exactly which characters get a backslash: eight special ones anywhere, a number sign at the start, a space at either end |
| `SrvOrder.PickIff` | client/ipa-getkeytab.c:113-119 | a record is selected by exactly the draws in an interval as long as its share of the weight |
| `SrvOrder.ChanceIs` | client/ipa-getkeytab.c:112-119 | the same in weights: the draws above the weights before a record, up to its own, where weight 0 counts a hundredth |
| `SrvOrder.PickInsideIff` | client/ipa-getkeytab.c:113-122 | the scan stops inside the group if and only if the draw does not exceed the total |
| `SrvOrder.WeightedPermutes` | client/ipa-getkeytab.c:106-126 | ordering a group loses and invents no record |
| `SrvOrder.SlotGetsPick` | client/ipa-getkeytab.c:106-126 | every slot of a group gets, of the records not placed before it, the one its draw selects; a draw beyond their weight leaves the first of them |
| `SrvOrder.GroupIsMaximal` | client/ipa-getkeytab.c:200-203 | a group is the longest run of equal priority |
| `SrvOrder.GroupedPermutes` | client/ipa-getkeytab.c:198-206 | ordering group by group loses and invents no record |
| `SrvOrder.GroupedSorted` | client/ipa-getkeytab.c:198-206 | and keeps the order of priorities |
| `SrvOrder.OrderedRecords` | client/ipa-getkeytab.c:196-206 | the parsed records come out permuted and in order of priority, whatever the draws |
| `SrvOrder.SortSlice` | client/ipa-getkeytab.c:105-105 | sorting a slice in place touches nothing else |
| `SrvOrder.Scan` | client/ipa-getkeytab.c:113-119 | the scan finds the selected record |
| `SrvOrder.SelectSlot` | client/ipa-getkeytab.c:112-125 | the swap puts it into its slot and touches nothing outside the group |
| `SrvOrder.SettleSlot` | client/ipa-getkeytab.c:106-126 | a round settles one slot and keeps the settled ones |
| `SrvOrder.SelectSlots` | client/ipa-getkeytab.c:106-126 | the selection loop turns what the group held into its weighted order and touches nothing else |
| `SrvOrder.SortPrioWeight` | client/ipa-getkeytab.c:97-127 | the in-place loop produces the specified order of the group, every slot of the array drawn from the records not placed before it |
| `SrvOrder.GroupEnd` | client/ipa-getkeytab.c:200-203 | the inner loop finds the end of the group |
| `SrvOrder.OrderGroup` | client/ipa-getkeytab.c:199-205 | one group is ordered, the records before and after it stay |
| `SrvOrder.OrderGroups` | client/ipa-getkeytab.c:198-206 | the loop over the groups orders them all |
| `SrvOrder.OrderRecords` | client/ipa-getkeytab.c:196-206 | sorting by priority and ordering the groups produces the specified list; the array holds the same records, in order of priority |
| `KeyFilter.ShiftDown` | client/ipa-getkeytab.c:309-312 | both arrays close the gap and keep their order |
| `KeyFilter.RemoveAt` | client/ipa-getkeytab.c:305-313 | the pairs are those before the gap and those after it |
| `KeyFilter.RemoveRejected` | client/ipa-getkeytab.c:303-318 | the loop ends with exactly the kept pairs, aligned, and has freed exactly the rejected keys |
| `KeyFilter.FilterKeys` | client/ipa-getkeytab.c:295-327 | the same for the container, whose count is updated unless no key is left |
| `KeyFilter.KeptAndFreedPartition` | client/ipa-getkeytab.c:304-308 | kept and freed keys together are the keys there were, none twice |
| `KeyFilter.KeptAtPositions` | client/ipa-getkeytab.c:303-318 | the kept pairs are a stable subsequence: they sit at increasing positions, which are exactly those not rejected |
| `KeyFilter.KeptIff` | client/ipa-getkeytab.c:304-305 | a pair stays if and only if the KDC returned the type of its key or any type but 0 |
| `KeyFilter.FreedAre` | client/ipa-getkeytab.c:305-308 | exactly the keys made for a type for which 0 came back are freed |
| `BackupStore.FileStore.Find` | ipalib/sysrestore.py:191-195 | the search finds the oldest entry of a path |
| `BackupStore.FileStore.HasFile` | ipalib/sysrestore.py:152-163 | whether a path is tracked |
| `BackupStore.FileStore.BackupFile` | ipalib/sysrestore.py:116-150 | the new list of snapshots, and entries and copies still matched |
| `BackupStore.FileStore.CopyOne` | ipalib/sysrestore.py:211-215 | bytes, mode and owner are written and the copy removed |
| `BackupStore.FileStore.RestoreFile` | ipalib/sysrestore.py:165-222 | the oldest snapshot of the path is written, at a new path if one is given, and dropped; errors for relative or untracked paths |
| `BackupStore.FileStore.CopyBack` | ipalib/sysrestore.py:235-251 | the loop writes every snapshot, oldest first, and empties the store |
| `BackupStore.FileStore.RestoreAllFiles` | ipalib/sysrestore.py:224-257 | everything is written back and nothing stays tracked; false for an empty store |
| `BackupStore.FileStore.UntrackFile` | ipalib/sysrestore.py:267-306 | the oldest snapshot is dropped and no file is written |
| `BackupStore.FileStore.Session` | ipalib/sysrestore.py:61-74 | any run, with the store reopened before every call, is the run of the snapshot list and keeps entries and copies matched |
| `BackupStore.OneCopyPerEntry` | ipalib/sysrestore.py:133-150 | matched means: one copy per entry, one entry per copy, and each copy holds what its name says |
| `BackupStore.StoredIff` | ipalib/sysrestore.py:133-141 | a copy of the computed name exists exactly when a snapshot of that base name and content is tracked |
| `BackupStore.NeverStoredTwice` | ipalib/sysrestore.py:138-141 | over every run no two snapshots share base name and content |
| `BackupStore.TrackedIff` | ipalib/sysrestore.py:116-150 | after a backup a path is tracked exactly when it was before, or its file exists and no equal copy is stored |
| `BackupStore.SecondDirectoryIsDropped` | ipalib/sysrestore.py:138-141 | the second of two equal files of one base name is not tracked, so its restore fails |
| `BackupStore.RunLeaves` | ipalib/sysrestore.py:165-222 | the oldest snapshot of a path stays the oldest through every run that does not take it |
| `BackupStore.BackupComesBack` | ipalib/sysrestore.py:165-222 | after any such run a restore brings back bytes, mode and owner of the first backup and changes no other file |
| `BackupStore.RestoreAllIsNewest` | ipalib/sysrestore.py:224-257 | restoring everything leaves the newest snapshot at each path and touches no other path |
| `BackupStore.DrainEndsAtNewest` | ipalib/sysrestore.py:165-222 | restoring one path until nothing of it is tracked ends at the newest snapshot as well |
| `BackupStore.UntrackForgets` | ipalib/sysrestore.py:267-306 | untracking forgets the oldest snapshot of the path, keeps the others in order and writes no file |
| `BackupStore.BaseIs` | ipalib/sysrestore.py:130-130 | copies are named after what follows the last slash of the path |
| `BackupStore.Refused` | ipalib/sysrestore.py:123-192 | relative paths, and paths without a snapshot, are refused and nothing changes |
| `BackupStore.RestoreWrites` | ipalib/sysrestore.py:205-220 | restoring writes the oldest snapshot to the path or to the new path given, and forgets it |
| `BackupStore.Granted` | ipalib/sysrestore.py:165-306 | a path with a snapshot is restored or untracked, and one snapshot is gone |
| `EnvValue.ConvertedTwice` | ipalib/config.py:255-272 | a converted value set again is kept as it is |
| `EnvValue.TextMeans` | ipalib/config.py:255-270 | what a text is kept as, for every text between spaces: True, False, None and the empty text, digits, a base DN, any other text |
| `EnvValue.NumberComesBack` | ipalib/config.py:266-267 | a number written in digits is kept as that number |
| `EnvValue.ShownComesBack` | ipalib/config.py:255-267 | the text of a truth value, of None or of a number is kept as that value |
| `EnvValue.JoinIs` | ipalib/config.py:393-407 | a path below another has one slash between them, and an absolute path stands alone |
| `EnvLaws.BootStage` | ipalib/config.py:424-529 | `_bootstrap` changes no variable that is set, stops at the first error, sets all its variables unless it fails, and meets a refused value only among the overrides |
| `EnvLaws.CoreStage` | ipalib/config.py:531-648 | `_finalize_core` changes no variable that is set, sets its own unless it fails, and meets a refused value only among the defaults |
| `EnvTables.TableSets` | ipalib/config.py:449-612 | a part of a stage sets each missing variable to its fallback, read off the environment it ends in, and touches no other |
| `EnvTables.UriSets` | ipalib/config.py:650-687 | the four derivations set each missing URI from a server known before or from the URIs known afterwards, and touch nothing else |
| `EnvTables.UrisDerived` | ipalib/config.py:665-687 | the JSON-RPC URI and the server are set afterwards if and only if they were before or what they are derived from is there |
| `EnvTables.ServerGivesUris` | ipalib/config.py:654-678 | with a server and no XML-RPC URI all the URIs get a value, and which |
| `EnvTables.XmlUriGivesServer` | ipalib/config.py:654-687 | with an XML-RPC URI alone the JSON-RPC URI gets its value, and the server gets one if and only if that is not empty |
| `EnvUnion.ItemsSet` | ipalib/config.py:346-351 | merging sets each missing variable to the first value given for it |
| `EnvUnion.FileSets` | ipalib/config.py:353-391 | a file sets each missing variable to its first item, and a note that it was loaded if it has any |
| `EnvUnion.ForcedSets` | ipalib/config.py:571-576 | the forced server and the URIs derived from it, and nothing where no server is forced |
| `EnvUnion.DerivedSets` | ipalib/config.py:587-616 | the variables filled in after the files, and the URIs unless a server was forced |
| `EnvUnion.LayerSets` | ipalib/config.py:424-714 | each of the ten layers keeps what is set and sets exactly what it offers for missing names |
| `EnvUnion.AfterAll` | ipalib/config.py:424-714 | the ten layers in order make up the three stages |
| `EnvUnion.UnionOfLayers` | ipalib/config.py:424-714 | a variable is set at the end if and only if some layer offers something for it, and then to what the first such layer offers |
| `EnvValues.OfferStands` | ipalib/config.py:346-351 | the offer of the first layer that has one is the final value |
| `EnvValues.MissingIff` | ipalib/config.py:424-714 | a variable is missing after some layers if and only if none of them offers anything for it |
| `EnvValues.RuntimeIs` | ipalib/config.py:449-456 | the run-time variables have the values of the process, whatever else is given |
| `EnvValues.OverrideSets` | ipalib/config.py:458-459 | an override is the value of its variable unless it names a run-time variable |
| `EnvValues.FilledIs` | ipalib/config.py:463-529 | a variable of `_bootstrap` that is not overridden has the value its fallback takes in the final environment, `mode` in a tree included |
| `EnvValues.ServerForcedIff` | ipalib/config.py:571-573 | a server is forced if and only if the overrides name one to force and none outright |
| `EnvValues.FilesReadIff` | ipalib/config.py:579-584 | the files are read if and only if no override sets the dummy mode |
| `EnvValues.ForcedIs` | ipalib/config.py:571-576 | a forced server is the server, and the URIs that are not overridden are derived from it |
| `EnvValues.ContextFileSets` | ipalib/config.py:583-583 | an item of the context file is the value of a variable that `_bootstrap`, the overrides and a forced server leave open |
| `EnvValues.DefaultFileSets` | ipalib/config.py:584-584 | so is an item of the default file that the context file does not give |
| `EnvValues.NamesFallback` | ipalib/config.py:587-612 | the fallbacks for server, logs, realm, domain and base DN, and when they apply |
| `EnvValues.DerivedIs` | ipalib/config.py:587-616 | a variable left open until then has the derived value, conditional ones included |
| `EnvValues.DefaultSets` | ipalib/config.py:618-618 | a default is the value of a variable left open until then |
| `EnvValues.TlsIs` | ipalib/config.py:620-634 | a TLS bound that nothing gives is null |
| `EnvValues.LastChanceSets` | ipalib/config.py:713-713 | a last-chance variable is the value where nothing else gives one |
| `EnvFinal.TreeIs` | ipalib/config.py:463-476 | where nothing is given: the tree, the context, and the mode in a tree |
| `EnvFinal.UserDirectoryIs` | ipalib/config.py:471-472 | the user's directory is .ipa below the home directory |
| `EnvFinal.ConfdirIs` | ipalib/config.py:478-498 | the configuration directory: from IPA_CONFDIR if that is set, the user's directory in a tree, or /etc/ipa |
| `EnvFinal.ContextFileIs` | ipalib/config.py:501-503 | the context file is named after the context, below the configuration directory |
| `EnvFinal.PathsAre` | ipalib/config.py:504-517 | the default file, the certificate database and the certificate path below the configuration directory |
| `EnvFinal.OnDemandIff` | ipalib/config.py:528-529 | plugins are loaded on demand exactly in the context of the command line |
| `EnvFinal.LogDirIs` | ipalib/config.py:591-595 | a server outside a tree logs to /var/log/ipa, anything else to the user's directory |
| `EnvFinal.DomainDnIs` | ipalib/config.py:610-612 | a base DN has one `dc` component per label of the domain |
| `EnvFinal.CertPathChecked` | ipalib/config.py:522-525 | after a run that goes through the certificate path is absolute |
| `EnvFinal.ConfdirChecked` | ipalib/config.py:479-493 | and IPA_CONFDIR, if it was set, was a good directory and no other was given |
| `EnvFinal.TlsGoesIff` | ipalib/config.py:620-648 | the TLS bounds are refused if and only if one is unknown or they are in the wrong order |
| `EnvPlaceholders.MergeIff` | ipalib/config.py:346-351 | merging goes through if and only if every item is set already or allowed, and raises for a value if and only if the first item that is not has an allowed name |
| `EnvPlaceholders.CoreRefusesIff` | ipalib/config.py:531-648 | `_finalize_core` raises for a value if and only if it gets as far as the defaults and one of them is refused |
| `EnvPlaceholders.BootstrapKeys` | ipalib/config.py:568-618 | a variable of `_bootstrap` that is missing can only come from a file, and in the dummy mode from nowhere |
| `EnvPlaceholders.PlaceholderReachedIff` | ipalib/constants.py:259-298 | a placeholder is reached if and only if the defaults are reached with a variable of `_bootstrap` missing after the files |
| `EnvPlaceholders.NeverReached` | ipalib/constants.py:259-273 | so none is after a `_bootstrap` that went through |
| `EnvPlaceholders.PlaceholderReached` | ipalib/config.py:479-484 | with `mode` and `confdir` overridden and IPA_CONFDIR set, catching the error of `_bootstrap` leads to the placeholder of `conf` |
| `EnvObject.Env.SetItem` | ipalib/config.py:239-276 | the variable is set to what its text stands for, or the first applicable error is raised and nothing changes |
| `EnvObject.Env.Fill` | ipalib/config.py:348-350 | a missing variable takes the converted value, a present one keeps its own |
| `EnvObject.Env.Merge` | ipalib/config.py:320-351 | the items are proposed one by one up to the first error, and the number of new variables is returned |
| `EnvObject.Env.MergeFromFile` | ipalib/config.py:353-391 | the items of a file that exists and parses are proposed, and the file is marked as loaded |
| `EnvObject.Env.JoinNext` | ipalib/config.py:393-407 | a missing path variable takes the path below another variable |
| `EnvObject.Env.SetRuntime` | ipalib/config.py:449-456 | the run-time part of `_bootstrap` |
| `EnvObject.Env.FillContext` | ipalib/config.py:463-476 | tree, mode, user directory and context |
| `EnvObject.Env.FillConfdir` | ipalib/config.py:478-498 | the configuration directory: explicit, from IPA_CONFDIR, from the tree or the system default, and the conflict between the first two |
| `EnvObject.Env.FillConfs` | ipalib/config.py:501-509 | the configuration files and the certificate database |
| `EnvObject.Env.FillPaths` | ipalib/config.py:513-529 | the cache, the certificate path and its check, and plugin loading |
| `EnvObject.Env.Bootstrap` | ipalib/config.py:424-529 | runs once and leaves exactly the specified variables, failed runs included |
| `EnvObject.Env.DeriveUris` | ipalib/config.py:650-687 | the URIs derived from the server, and the server from them |
| `EnvObject.Env.DeriveNext` | ipalib/config.py:666-687 | a missing variable is derived from a set or default URI |
| `EnvObject.Env.ForceServer` | ipalib/config.py:571-576 | a forced server is set and URIs derived from it |
| `EnvObject.Env.MergeFiles` | ipalib/config.py:579-584 | context file, then default file, unless the mode is dummy |
| `EnvObject.Env.FillServer` | ipalib/config.py:587-599 | whether the process is a server, and the log variables |
| `EnvObject.Env.FillDomain` | ipalib/config.py:601-612 | the reserved names for an uninstallation, and the base DN |
| `EnvObject.Env.CheckTls` | ipalib/config.py:620-648 | the TLS bounds and their checks |
| `EnvObject.Env.FinalizeCore` | ipalib/config.py:531-648 | runs once, after `_bootstrap`, and leaves exactly the specified variables |
| `EnvObject.Env.Finalize` | ipalib/config.py:689-714 | runs once, after `_finalize_core`, merges the last variables and locks |
| `EnvObject.BootSame` | ipalib/config.py:424-529 | what `_bootstrap` does does not depend on the defaults |
| `EnvObject.Perform` | ipalib/config.py:409-419 | over every run, failed calls included, variables stay as first set, a locked environment is frozen and stages are entered in order |
| `EnvObject.Start` | ipalib/config.py:424-714 | the standard run ends with exactly the left-biased union of the ten layers, and locked exactly if no stage failed |
| `Registry.Api.AddPlugin` | ipalib/plugable.py:705-755 | each way a plugin is accepted, ignored or refused, and the new registry |
| `Registry.AcceptedIff` | ipalib/plugable.py:725-755 | after every run a class is accepted if and only if it overrides exactly when its full name has a history, and it then extends that history alone |
| `Registry.RefusedAs` | ipalib/plugable.py:715-751 | why a class is refused: an unknown base, no override of an existing full name, or an override of none; nothing is raised under `no_fail` |
| `Registry.FullNameIff` | ipalib/plugable.py:150-151 | two plugins have one full name if and only if they have one name and one version |
| `Registry.OneLivePerName` | ipalib/plugable.py:725-755 | after every run at most one plugin is live per full name, and the key index maps exactly the live ones |
| `Registry.LiveIsNewest` | ipalib/plugable.py:725-755 | the live plugin of a name is the class accepted last under it |
| `Registry.ChainIsHistory` | ipalib/plugable.py:829-833 | with different classes the chain visits precisely the overridden predecessors, newest first, and ends |
| `Registry.ChainEndsIff` | ipalib/plugable.py:739-740 | the chain ends if and only if no class was accepted twice under the full name |
| `Registry.DifferentClassesEnd` | ipalib/plugable.py:725-755 | every chain ends when each call brings a class of its own |
| `Registry.SelfOverrideLoops` | ipalib/plugable.py:739-740 | a class that overrides itself has an endless chain |
| `Registry.ChooseDefaults` | ipalib/plugable.py:772-789 | the loop over the set computes the default of every name, in both modes |
| `Registry.DefaultIsTop` | ipalib/plugable.py:772-789 | the default is the version of a live candidate that no other candidate beats |
| `Registry.DefaultIsNewest` | ipalib/plugable.py:781-789 | in validation mode the default has the greatest major number, and of those the greatest minor one |
| `Registry.TopCanWin` | ipalib/plugable.py:772-789 | every such candidate is the default for some order of the set |
| `Registry.OrderIndependentIff` | ipalib/plugable.py:772-789 | the default does not depend on the order if and only if the unbeaten candidates have one version |
| `Registry.SpellingsTie` | ipalib/plugable.py:785-789 | the versions "1" and "1.0" of one name make it depend on the order |
| `Registry.BareNameIsUnique` | ipalib/plugable.py:295-307 | after every run a bare name leads to at most one live plugin, and to one if and only if it has a default or a live version 1 |
| `DomainSearch.FindDot` | ipaclient/discovery.py:195-195 | the position of the first dot, or -1 |
| `DomainSearch.CheckDomain` | ipaclient/discovery.py:170-201 | the pruned walk finds the first hit among the domain and those above it, asks about nothing tried before, and keeps the tried set closed after a miss |
| `DomainSearch.Search` | ipaclient/discovery.py:246-265 | the loop over the candidates finds what the search without pruning finds and asks about no domain twice |
| `DomainSearch.SettledMisses` | ipaclient/discovery.py:184-187 | nothing is missed by skipping a domain of a closed set of misses |
| `DomainSearch.FullSearchFailsIff` | ipaclient/discovery.py:246-265 | the search fails if and only if no suffix of a valid candidate has a server |
| `DomainSearch.SuffixesAre` | ipaclient/discovery.py:195-200 | the domains searched are those left by dropping labels from the front, one by one |
| `DomainSearch.FirstHitIs` | ipaclient/discovery.py:190-193 | the first of them that has servers is found, with its servers |
| `DomainSearch.FullSearchIs` | ipaclient/discovery.py:246-265 | the first valid candidate that has a hit decides |

## Left out

- Regular expressions and `\w`, `\s`, `isdigit`, `strip` and `lower` are modelled on ASCII.
- AciObject.ACI.ParseTarget: does not show the entry under the key False that a text without an opening parenthesis adds before its error.
- Base DNs that `DN` refuses.
- Setters of `ACI` other than the bind rule, and its comparison, which would only add easy members.
- Certificates and signing requests on the wire, because the two encodings differ by design.
- Floating-point rounding in the SRV weights and the one draw below zero that `rand_inclusive` can produce.
- Failing system calls in the backup store, and writes of other programs into its directory.
- The text form of the backup index and of configuration files: parsers are taken as lossless.
- Malformed versions of plugins, which make `finalize` raise.
- Numeric values where `Env` expects a path of a configuration file.
- The Kerberos realm search, server checks and the state file of `sysrestore`, outside the chosen core.
- `validate_domain_name` itself; its verdict is part of each candidate.
