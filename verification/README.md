# Verified models

Dafny models of the algorithmic core of this repository, with proofs. Each group stands alone.

- EPaxos (`Epaxos*.dfy`, `SccMarks.dfy`, `Reachability.dfy`): the execution order that Tarjan's search over the
  dependency graph gives, and the commit protocol as events under lost, delayed, duplicated and reordered
  messages, without recovery.
- Regular expressions (`Regex*.dfy`): from the pattern through the two-stack parser, the Thompson automaton on
  the heap and the subset construction to the matcher.
- jsoniter (`Json*.dfy`): the strict tokenizer against trees with whitespace, in both directions, and against the
  texts of RFC 8259, and the fast tokenizer against the strict one.
- dotjson (`Dotjson*.dfy`): the hash object against a map, the encoder, the decoder against texts with any spaces
  and escapes, and the round trip.
- Concurrency and framing (`Gorpool.dfy`, `Yagw*.dfy`, `LittleEndian.dfy`): the goroutine pool, the descriptor
  ownership protocol of the gateway's workers, and its packets.
- Classic algorithms (`Dijkstra.dfy`, `Md5.dfy`).

Code that updates state is modelled by classes, arrays and loops proved against functions or predicates;
protocols are state machines over their atomic steps, with every interleaving a run. `dafny verify
dfyconfig.toml` checks everything.

Where the code departs from what its comments say, the model follows the code:

- `resolveScc` lists dependencies first, but commands are applied from the end of the list
  (go/epaxos/epaxos.go:1062). `ApplyOrder` says exactly when that respects dependencies.
- A successful `Accept` answers `Ok: false` (go/epaxos/epaxos.go:380). `SlowPathFails` says what follows.
- The parser applies the incoming operator in place of the popped one (go/re0/re.go:47). `ParsePrinted` gives
  the tree it builds and `ParseIntended` the patterns on which that is the intended one.
- A missing transition of the automaton is 0, the start state, and 0 never accepts (go/re0/nfa.go:163-164), so
  matching is not membership. `TableMatches` is the exact verdict; the two inclusions follow from it.
- Two halves of two, four or six replicas are fast quorums (go/epaxos/epaxos.go:580-582), so interference needs an
  odd number or at least eight: `InterferenceExactly`.
- The fast path asks for equal Deps, not for equal Seqs as its comment says (go/epaxos/epaxos.go:599-604), so a commit's
  Seq can be below that of what it depends on: `SeqsAgreeExactly` and `SeqMayBeLower`.
- A string ends at the first quote with no backslash just before it (go/jsoniter/iter.go:63), so a text of RFC 8259
  with a string that ends in an escaped backslash is not read; nor is one with a plus sign in an exponent
  (:102-104). Leading zeros and unknown escapes are read. `StandardTextExactly` and `AcceptedIsStandard` say exactly
  which texts are read and which of those are of the standard.
- The fast tokenizer takes a literal that ends the input for none (go/jsoniter/iter_fast.go:57-74): `LiteralAtEnd`.
- Each half of a surrogate pair is encoded on its own (c/dotjson/dotjson.c:82-89), which RFC 3629 forbids:
  `SurrogatesExactly`.
- Keys are printed unescaped (c/dotjson/dotjson.c:645-649) and strings end at NUL (:563): `RoundTripExactly`,
  `KeyReadBack` and `StringReadBack` say exactly what is read back.
- A descriptor found bad after it was taken keeps its own flag (go/yagw/server.go:239-241); it appears as
  `Abandoned`.
- After a packet with a bad length the reader answers false without reading until it is reset (go/yagw/proto.go:84-91):
  `ReadFrom`.
- `Final` copies the beginning of a tail of a block or more (cpp/md5/md5p.cpp:110-112). `FinalIsRight` says when
  that is right.
- `GetSum` does not end for messages of 2^32 - 64 bytes or more (cpp/md5/md5p.cpp:9).

## Model

| member | source | states |
|---|---|---|
| `EpaxosExecute.OrderCommands` | go/epaxos/epaxos.go:983-1027 | collecting and resolving a command lists every command it depends on, directly or not, exactly once; components contiguous, each after all components it depends on, members of a component by non-increasing Seq |
| `EpaxosExecute.CollectCmds` | go/epaxos/epaxos.go:983-997 | terminates on cyclic dependencies; the nodes built are one for each instance reachable from the root, linked as the stored Deps say |
| `EpaxosExecute.CollectDep` | go/epaxos/epaxos.go:988-995 | a dependency already visited is reused, a new one is collected, and what was built before stays as it was |
| `EpaxosExecute.ResolveRoot` | go/epaxos/epaxos.go:1050-1060 | on fresh marks the search ends with an empty stack and the promised order in res |
| `EpaxosExecute.EaContext.ResolveScc` | go/epaxos/epaxos.go:999-1027 | one visit keeps the search invariant for every set of callers still open, numbers what is newly reachable, closes exactly the finished components |
| `EpaxosExecute.EaContext.VisitDep` | go/epaxos/epaxos.go:1005-1012 | one dependency: recursion, back edge or finished node, each lowers low only to the number of a node on the stack that is reachable |
| `EpaxosExecute.EaContext.PopScc` | go/epaxos/epaxos.go:1013-1026 | popping at a root clears instk of exactly one component and appends it sorted |
| `EpaxosExecute.SortBySeq` | go/epaxos/epaxos.go:1022-1024 | a permutation in non-increasing Seq |
| `EpaxosExecute.SearchDone` | go/epaxos/epaxos.go:999-1027 | the invariant of a completed search implies the promised order |
| `EpaxosExecute.ApplyOrder` | go/epaxos/epaxos.go:1055-1068 | applying from the end of the list respects dependencies if and only if everything the root depends on depends on the root |
| `EpaxosExecute.ApplyOrderCounterexample` | go/epaxos/epaxos.go:1055-1068 | two commands, one depending on the other, are applied in the wrong order |
| `SccMarks.PushStarts` | go/epaxos/epaxos.go:1000-1004 | entering a node establishes the loop invariant of the search |
| `SccMarks.BackEdge` | go/epaxos/epaxos.go:1009-1011 | lowering low to the number of a dependency on the stack keeps the loop invariant |
| `SccMarks.TreeEdge` | go/epaxos/epaxos.go:1006-1008 | a finished recursive visit followed by the minimum keeps the loop invariant |
| `SccMarks.LeaveRoot` | go/epaxos/epaxos.go:1013-1026 | when low equals dfn the node and all above it on the stack are one strongly connected component and no edge leaves it to an open node |
| `SccMarks.LeaveOpen` | go/epaxos/epaxos.go:1013-1013 | when low is smaller the node stays on the stack and still leads to an open one |
| `EpaxosAgreement.Agreement` | go/epaxos/epaxos.go:289-405 | in every run without recovery, under loss, duplication and reordering, an instance committed anywhere, at any times, has the same command, Seq and Deps |
| `EpaxosAgreement.Stability` | go/epaxos/epaxos.go:289-405 | an instance committed at a replica stays committed there, unchanged, in every later state |
| `EpaxosAgreement.StepAgrees` | go/epaxos/epaxos.go:553-730 | every event keeps the agreement invariant and everything committed so far |
| `EpaxosInterference.Interference` | go/epaxos/epaxos.go:553-637 | with an odd number of replicas, or at least eight, of two decided commands on one key one was counted second at a common replica and depends on that replica's lastId, recorded with at least the other's Seq |
| `EpaxosInterference.StepCounts` | go/epaxos/epaxos.go:1226-1254 | every event keeps the link between the leaders' counts, the replicas' stores and the per-key index |
| `EpaxosInterference.MajoritiesMeet` | go/epaxos/epaxos.go:580-583 | two sets of replicas of at least majority size share one |
| `EpaxosInterference.StoreKeepsIndex` | go/epaxos/epaxos.go:1241-1253 | after a store the key's lastId names an instance stored on the key with the highest Seq stored there |
| `EpaxosInterference.StoreKeepsFirst` | go/epaxos/epaxos.go:1246-1249 | of several stores with that Seq it names the first, because only a strictly higher one replaces it |
| `EpaxosOrigins.AnsweredStores` | go/epaxos/epaxos.go:308-332 | in every run, what a replica stores for another leader's pre-accept request has a Seq of at least the request's, above every one it stored earlier on the key and no higher than one of the two needs; its Deps are those of the request and the newest instance it knew on the key, and no others |
| `EpaxosOrigins.AnswersInEveryRun` | go/epaxos/epaxos.go:333-343 | in every run, a positive answer tells the Seq and Deps that its sender stored |
| `EpaxosOrigins.CopiedStores` | go/epaxos/epaxos.go:347-405 | in every run, every other store has the command, Seq and Deps of a message of its leader, pre-accepted, accepted and committed each of that kind |
| `EpaxosOrigins.TablesInEveryRun` | go/epaxos/epaxos.go:1226-1232 | in every run, a replica's table holds its last store of each instance and no others |
| `EpaxosOrigins.OwnStores` | go/epaxos/epaxos.go:748-775 | where read and first store are one step, a leader's own store has the Seq right above every earlier one there on the key, and the newest instance on the key, if any, as its only dependency |
| `EpaxosOrigins.PreAcceptedAbove` | go/epaxos/epaxos.go:289-345 | so in those runs every pre-accept store is above all earlier ones on its key, whoever leads it |
| `EpaxosOrigins.SeenIsLower` | go/epaxos/epaxos.go:553-637 | and of two decided commands the replica through which one sees the other stored it with a higher Seq |
| `EpaxosOrigins.DecidedInEveryRun` | go/epaxos/epaxos.go:599-637 | in every run, phase 1 decides on the Deps of all replicas counted and no others, on the leader's Seq if they all stored its Deps and otherwise on the highest of it and of those that did not, and only with enough replicas |
| `EpaxosOrigins.CommittedInEveryRun` | go/epaxos/epaxos.go:617-629 | in every run, what is committed rests on a fast quorum of replicas that all stored exactly these Deps |
| `EpaxosOrigins.PhaseOneEnds` | go/epaxos/epaxos.go:580-637 | in every run, phase 1 commits if f and half of f replicas were counted, f being how many may fail, and none stored other Deps; otherwise it goes on to the accept phase if more than half of all were; otherwise it gives up and changes nothing else |
| `EpaxosSeqs.SeqsAgreeExactly` | go/epaxos/epaxos.go:599-618 | in every run, a replica counted for a commit stored its Deps; it stored its Seq, too, if and only if it is the leader or every earlier store of its own on the key has a lower one, and otherwise it stored a higher one |
| `EpaxosSeqs.SeqMayBeLower` | go/epaxos/epaxos.go:599-629 | a run of three replicas, read and first store one step, in which a command is committed with Seq 2 and depends on one decided with Seq 3 |
| `EpaxosProtocol.HandlersRun` | go/epaxos/epaxos.go:289-405 | the events at a replica leave it as the handlers do and send their answers |
| `EpaxosIndex.IndexInEveryRun` | go/epaxos/epaxos.go:1226-1254 | in every state of every run, whatever falls between a read and a store, each replica's index names, for exactly the keys stored there, the first of the stores with the highest Seq, and the first of the writes with the highest, and every store saw one at least as high as those before it |
| `EpaxosIndex.StepIndexed` | go/epaxos/epaxos.go:289-730 | every event keeps that, and every Seq stored or under way positive |
| `EpaxosQuorums.InterferenceExactly` | go/epaxos/epaxos.go:580-583 | interference holds in every such run if and only if the number of replicas is odd or at least eight |
| `EpaxosQuorums.HalvesAreBlind` | go/epaxos/epaxos.go:580-629 | runs with two, four and six replicas in which each half decides a command on the key and neither depends on the other |
| `EpaxosQuorums.ApartIsBlind` | go/epaxos/epaxos.go:748-751 | a run with three replicas in which another store comes between the leader's attribute read and its first store, and interference fails |
| `EpaxosFastPath.CommittedAsProposed` | go/epaxos/epaxos.go:599-629 | with two or more replicas a command is only ever committed with the attributes its leader proposed |
| `EpaxosFastPath.SlowPathFails` | go/epaxos/epaxos.go:639-692 | with two or more replicas the accept phase always ends without a commit, because a successful Accept answers Ok false |
| `EpaxosReplica.FastQuorumIsMajority` | go/epaxos/epaxos.go:580-582 | the fast quorum is a majority if and only if the number of replicas is odd or at least eight; otherwise two fast quorums can be disjoint |
| `EpaxosReplica.Collect` | go/epaxos/epaxos.go:576-615 | the loop over replies computes the tally |
| `EpaxosReplica.CountAllSpec` | go/epaxos/epaxos.go:584-621 | of the replies taken, each positive one is counted once; the merged Deps are theirs and the leader's and no others, isDiff says that one differs, and the Seq is the highest among those that differ |
| `EpaxosReplica.StopsAtFirst` | go/epaxos/epaxos.go:584-615 | over the replies alone: the loop ends at the first that makes a fast quorum, or a majority with a difference, and takes all of them if none does |
| `EpaxosReplica.SeenSpec` | go/epaxos/epaxos.go:590-596 | maxSeen becomes the highest ballot among the leader's and those of the refusals taken |
| `EpaxosReplica.BallotOrder` | go/epaxos/epaxos.go:1358-1370 | a higher epoch wins, then a higher b, then a higher r; this is a strict total order |
| `EpaxosReplica.State.SetCmd` | go/epaxos/epaxos.go:1226-1254 | stores the instance and updates the key's newest and newest written instance |
| `EpaxosReplica.State.PreAccept` | go/epaxos/epaxos.go:289-345 | the handler as a step: it refuses exactly if the instance is stored as committed or with a higher maxSeen, leaves everything as it was and answers that maxSeen; otherwise the answer is the Seq and Deps it has just stored (which these are: `AnsweredStores`) |
| `EpaxosReplica.State.Accept` | go/epaxos/epaxos.go:347-385 | the handler as a step: it refuses exactly if the instance is stored as committed or with a higher ballot, and otherwise stores what the request carries; the answer is false also then |
| `EpaxosReplica.State.Commit` | go/epaxos/epaxos.go:387-405 | the handler as a step |
| `EpaxosReplica.State.AllocInstance` | go/epaxos/epaxos.go:1296-1307 | the next index, one above the last |
| `RegexMatch.Match` | go/re0/re.go:97-103 | for every pattern and string the compiled matcher's answer is the language-level verdict on the tree the parser builds; no answer exactly when the parser panics (which tree, and when: `ParseExactly`) |
| `RegexLanguage.WordMatches` | go/re0/dfa.go:8-14 | every non-empty word of the language matches |
| `RegexLanguage.MatchEndsInWord` | go/re0/dfa.go:8-14 | every string that matches has a non-empty suffix in the language |
| `RegexLanguage.MatchIsNotMembership` | go/re0/nfa.go:163-164 | two concrete strings on which matching and membership differ |
| `RegexThompson.CharDenotes` | go/re0/nfa.go:35-40 | one labelled edge denotes one character |
| `RegexThompson.CatDenotes` | go/re0/nfa.go:42-45 | overwriting the end state with the second start state gives exactly concatenation |
| `RegexThompson.OrDenotes` | go/re0/nfa.go:47-55 | gives exactly union |
| `RegexThompson.StarDenotes` | go/re0/nfa.go:57-65 | gives exactly Kleene star |
| `RegexNfa.NfaChar` | go/re0/nfa.go:35-40 | a valid automaton in fresh states for one character |
| `RegexNfa.NfaCat` | go/re0/nfa.go:42-45 | in place, on heap-disjoint operands: no edge into Start, none out of End, and the concatenation |
| `RegexNfa.NfaOr` | go/re0/nfa.go:47-55 | the same for union |
| `RegexNfa.NfaStar` | go/re0/nfa.go:57-65 | the same for star |
| `RegexSyntax.ParsePrinted` | go/re0/re.go:3-95 | every printed pattern, with characters plain, behind a backslash, or as the letters n, t and r behind one, is accepted and gives exactly the tree that the parser's treatment of pending operators amounts to, over the characters printed |
| `RegexPatterns.ParseExactly` | go/re0/re.go:3-95 | a pattern is read, and as this tree, if and only if some opening parentheses in front of it and closing ones behind it, without a last backslash that escapes nothing, make it a printed pattern of that reading; on all others the parser panics |
| `RegexPatterns.ParsedCompletes` | go/re0/re.go:3-95 | every pattern that is read can be completed so |
| `RegexPatterns.CompletedParses` | go/re0/re.go:3-95 | every pattern that can be completed so is read, with that reading |
| `RegexPatterns.OpenInFront` | go/re0/re.go:91-94 | an opening parenthesis in front changes nothing |
| `RegexPatterns.CloseBehind` | go/re0/re.go:29-37 | nor does a closing one behind, unless it is escaped |
| `RegexPatterns.BackslashBehind` | go/re0/re.go:71-73 | nor does a last backslash that escapes nothing |
| `RegexPatterns.DoomedStays` | go/re0/re.go:13-24 | a pattern that lacks an operand never gets it back |
| `RegexSyntax.ParseIntended` | go/re0/re.go:38-50 | the parser gives the intended tree if and only if all alternatives but the last in every group are single, possibly starred, atoms |
| `RegexSyntax.Misread` | go/re0/re.go:46-47 | the shortest misread pattern: a concatenation of two characters before a bar is taken for two alternatives |
| `RegexParser.REtoNFA` | go/re0/re.go:3-95 | the two-stack loop ends with an automaton for the tree of the specification, or panics exactly when an operand is missing |
| `RegexParser.Parser.Step` | go/re0/re.go:57-90 | one character: escapes, implicit concatenation, operators; what they mean is `ParseExactly` |
| `RegexParser.Parser.AddOp` | go/re0/re.go:25-54 | the operator loop, including its use of the incoming operator |
| `RegexParser.Parser.ApplyOp` | go/re0/re.go:13-24 | replaces the top automata by their combination, operands staying disjoint |
| `RegexParser.Parser.CloseParen` | go/re0/re.go:29-37 | reduces to the matching parenthesis |
| `RegexParser.Parser.Finish` | go/re0/re.go:91-94 | applies what is left on the operator stack |
| `RegexMatch.NfaAllocId` | go/re0/nfa.go:67-77 | terminates on cycles; numbers everything reachable once, without gaps, and keeps earlier numbers |
| `RegexMatch.NumberStates` | go/re0/re.go:98-99 | all states of the automaton get different non-zero numbers |
| `RegexDfa.NfaMove` | go/re0/nfa.go:79-93 | exactly the states one labelled edge away, each once |
| `RegexDfa.EClosure` | go/re0/nfa.go:95-120 | terminates on cycles of epsilon edges; exactly the epsilon-closure, each state once |
| `RegexDfa.NfaDState` | go/re0/nfa.go:122-140 | a permutation of the states with the exact id sum and accept flag, although the reordering does not sort |
| `RegexDfa.InStates` | go/re0/nfa.go:142-159 | an index of a list with the same states in the same order and the same id sum; -1 exactly when there is none |
| `RegexDfa.NfaToDfa` | go/re0/nfa.go:161-197 | terminates; every transition on a labelled character goes to the closure of the move, a missing one to 0, accept above 0 means an accepting state is contained, 0 never accepts |
| `RegexDfa.Match` | go/re0/dfa.go:8-14 | follows the table |
| `RegexSubsets.MoveClosure` | go/re0/nfa.go:182-182 | the closure of a move is what the automaton reaches by one more character |
| `RegexSubsets.StateReads` | go/re0/nfa.go:161-197 | after any string the table is in the state of exactly the automaton states reached by what is being read; it restarts exactly where no word continues |
| `RegexSubsets.TableMatches` | go/re0/dfa.go:8-14 | the table accepts exactly the strings whose current reading is a non-empty word |
| `JsonSound.RunIsTree` | go/jsoniter/iter.go:118-264 | an error-free run from an opening bracket back to state 0 has read exactly one tree over the scanner's own string and number lexemes, whitespace included, and its tokens are that tree's flattening |
| `JsonSound.StackMirrors` | go/jsoniter/iter.go:165-199 | at every point of such a run the saved states are 2 and 5 only and mirror the open containers |
| `JsonSound.StepSound` | go/jsoniter/iter.go:201-264 | one error-free call extends the partial tree by exactly the bytes and the token read |
| `JsonComplete.TextIsAccepted` | go/jsoniter/iter.go:118-264 | every object or array text over those lexemes, with any whitespace, before and after anything, is tokenized as its tree |
| `JsonComplete.StatesOf` | go/jsoniter/iter.go:201-264 | expected tokens read one by one are an error-free run of the state machine |
| `JsonStandard.StandardTextExactly` | go/jsoniter/iter.go:118-264 | an object or array text of RFC 8259 is tokenized as its tree if and only if no string in it ends in an escaped backslash and no exponent carries a plus sign; otherwise some call gives another token or an error |
| `JsonStandard.LookBackExactly` | go/jsoniter/iter.go:62-66 | a string of section 7 of RFC 8259 is scanned to its end if and only if its last character is not an escaped backslash |
| `JsonStandard.PlusExactly` | go/jsoniter/iter.go:98-105 | a number of section 6 of RFC 8259 before a delimiter is scanned to its end, or refused if and only if its exponent carries a plus sign |
| `JsonStandard.AcceptedIsStandard` | go/jsoniter/iter.go:55-116 | a text that is accepted is one of RFC 8259 if and only if its strings hold only characters and escapes of section 7 and no number has a leading zero |
| `JsonStandard.LeadingZeroExactly` | go/jsoniter/iter.go:81-92 | a number that is accepted is one of section 6 if and only if no zero leads it |
| `JsonStandard.StandardIsLost` | go/jsoniter/iter.go:63-63 | two texts of RFC 8259 that are not read: a string that is one escaped backslash, and a number with a plus sign in its exponent |
| `JsonStandard.OthersAreRead` | go/jsoniter/iter.go:61-92 | two texts that are read and are not of RFC 8259: a number with a leading zero and a string with an unknown escape |
| `JsonLevels.TextIsBracketed` | go/jsoniter/iter.go:165-199 | that run goes from bracket to bracket: the machine is back at the top level only after the last token |
| `JsonLevels.FastReadsTexts` | go/jsoniter/iter_fast.go:8-100 | so IterFast, too, tokenizes every such text as its tree |
| `JsonLevels.RunLevel` | go/jsoniter/iter.go:165-199 | cur and the saved states count exactly the brackets opened and not closed |
| `JsonTruncated.EndExactly` | go/jsoniter/iter.go:205-211 | Next answers Invalid without an error if and only if the machine is at state 0 and only whitespace is left; at any other state that is io.ErrUnexpectedEOF |
| `JsonTruncated.TruncatedIsError` | go/jsoniter/iter.go:201-264 | every proper prefix of an object or array text that holds its opening bracket, behind anything, ends with io.ErrUnexpectedEOF within as many calls as the whole has tokens |
| `JsonTruncated.Sticky` | go/jsoniter/iter.go:202-204 | an error stays, whatever is called |
| `JsonTruncated.ScalarAtTop` | go/jsoniter/iter.go:118-187 | a string, literal or number outside all containers is one token, also where it ends the input |
| `JsonTruncated.SyntaxPlace` | go/jsoniter/iter.go:118-264 | a syntax error names the byte behind what may be skipped before a token: whitespace, and one separator at most |
| `JsonTruncated.SyntaxStays` | go/jsoniter/iter.go:118-264 | it does not depend on what follows in the input |
| `JsonTruncated.EofMayGoOn` | go/jsoniter/iter.go:42-54 | but an unexpected end does: with more input the call comes to another answer |
| `JsonFast.FastAgrees` | go/jsoniter/iter_fast.go:8-100 | on every array or object that Iter tokenizes without error IterFast yields the same kinds and byte slices |
| `JsonFast.NumberSame` | go/jsoniter/iter_fast.go:34-46 | a number's end agrees because the byte after it is one the next strict step accepts |
| `JsonFast.IterFast.Next` | go/jsoniter/iter_fast.go:48-100 | the stateless scanner computes its specification |
| `JsonFast.FastInvalid` | go/jsoniter/iter_fast.go:48-100 | exactly when the fast tokenizer gives no token, and what it gives instead: the rest of the input, or the one byte that begins none |
| `JsonFast.LiteralAtEnd` | go/jsoniter/iter_fast.go:57-74 | a literal is one if and only if something follows it |
| `JsonIter.Iter.Next` | go/jsoniter/iter.go:201-264 | the state machine computes its specification, errors included; what these are is `EndExactly`, `TruncatedIsError` and `SyntaxPlace` |
| `JsonIter.Iter.ReadValue` | go/jsoniter/iter.go:118-187 | the same for values |
| `JsonIter.Iter.ReadString` | go/jsoniter/iter.go:55-71 | the same for strings, ended by a quote with no backslash just before it |
| `JsonIter.Iter.ReadNumber` | go/jsoniter/iter.go:73-116 | the same for numbers |
| `JsonIter.Iter.CloseBracket` | go/jsoniter/iter.go:189-199 | pops the saved state |
| `JsonTree.NumberSound` | go/jsoniter/iter.go:73-116 | a scanned number is a lexeme of the number grammar |
| `JsonTree.NumberComplete` | go/jsoniter/iter.go:73-116 | every such lexeme before a delimiter is scanned to its end |
| `DotjsonRoundTrip.RoundTrip` | c/dotjson/dotjson.c:312-733 | for every object with NUL-free strings, accepted number lexemes and distinct keys free of quote, backslash and NUL, decoding its printed text uses all of it and gives an object with the same meaning, objects read as maps |
| `DotjsonRoundTrip.EncodeThenDecode` | c/dotjson/dotjson.c:735-806 | the same through the program: size with no buffer, print, decode, and look a key up |
| `DotjsonRoundTrip.NodeRound` | c/dotjson/dotjson.c:503-549 | the same for every value in any context that ends it |
| `DotjsonRoundTrip.StringRound` | c/dotjson/dotjson.c:120-210 | unescaping undoes escaping |
| `DotjsonRoundTrip.NumberRound` | c/dotjson/dotjson.c:331-374 | a number lexeme before a delimiter is read to its end |
| `DotjsonRoundTrip.GetMeans` | c/dotjson/dotjson.c:797-806 | a lookup in a decoded object gives the value under the key, and nothing where there is none |
| `DotjsonRoundTrip.AddMeans` | c/dotjson/dotjson.c:465-471 | adding an entry under a new key adds exactly that binding to the map |
| `DotjsonRoundTrip.QuoteInKeyIsLost` | c/dotjson/dotjson.c:645-649 | an instance: the key that is one quote is not read back |
| `DotjsonExact.RoundTripExactly` | c/dotjson/dotjson.c:621-662 | an object with NUL-free strings, accepted number lexemes and distinct keys, nested to any depth, is read back whole and with its meaning if and only if every key at every depth is free of quote, backslash and NUL |
| `DotjsonExact.Longer` | c/dotjson/dotjson.c:632-656 | a key that is read anywhere and holds a quote or backslash was read from a printed key, at any depth, whose last one is further back, or else has a backslash there and is longer |
| `DotjsonExact.NodeTokened` | c/dotjson/dotjson.c:376-549 | every key of every object in a decoded value, at any depth, was read as a string behind a brace, comma or space and before a colon |
| `DotjsonExact.ValueLocated` | c/dotjson/dotjson.c:551-733 | every backslash in a printed value is inside a string value or in a printed key, at any depth |
| `DotjsonExact.SameKeys` | c/dotjson/dotjson.c:621-662 | documents with the same meaning have the same keys at every depth, up to the first NUL |
| `DotjsonExact.OneFieldReadBack` | c/dotjson/dotjson.c:621-662 | an object with one entry is read back with its meaning if and only if its key and those inside its value are free of them |
| `DotjsonExact.FieldsClean` | c/dotjson/dotjson.c:441-488 | the decoder passes no NUL |
| `DotjsonLimits.KeyReadBack` | c/dotjson/dotjson.c:645-649 | wherever a key is printed, it is read back, as the key or the start of a longer one, if and only if it is free of quote, backslash and NUL |
| `DotjsonLimits.StringReadBack` | c/dotjson/dotjson.c:551-619 | a string is read back if and only if it holds no NUL; otherwise the part before it is |
| `DotjsonLimits.NumberReadBack` | c/dotjson/dotjson.c:331-374 | a number is read back if and only if the decoder takes its lexeme for one number |
| `DotjsonDocument.DecodedExactly` | c/dotjson/dotjson.c:433-501 | at any position of any text an object is decoded, with this end and this result, if and only if the text of an object with any spaces and any escapes stands there and ends there, and the result is the object with its members added in order; the bytes of an escape are those of `Utf8Reads` |
| `DotjsonDocument.DecodedMeans` | c/dotjson/dotjson.c:433-501 | where no object in the text has a key twice the result means what the text says, and lookups in it are exact |
| `DotjsonDocument.NodeComplete` | c/dotjson/dotjson.c:503-549 | every value as written, before a byte that no number goes on with, is decoded to its end and to what it stands for |
| `DotjsonDocument.NodeSound` | c/dotjson/dotjson.c:503-549 | whatever is decoded is a value as written, and the result what it stands for |
| `DotjsonDocument.ItemsComplete` | c/dotjson/dotjson.c:376-431 | the same as the first for the elements of an array behind any others |
| `DotjsonDocument.ItemsSound` | c/dotjson/dotjson.c:376-431 | the same as the second; no comma stands before the bracket |
| `DotjsonDocument.FieldsComplete` | c/dotjson/dotjson.c:433-501 | the same for the members of an object |
| `DotjsonDocument.FieldsSound` | c/dotjson/dotjson.c:433-501 | the same; no comma stands before the brace |
| `DotjsonLexemes.StringComplete` | c/dotjson/dotjson.c:120-210 | characters, escapes and groups of four hexadecimal digits up to the quote are read as the bytes they stand for (`Utf8Reads`, `HexExactly`) |
| `DotjsonLexemes.StringSound` | c/dotjson/dotjson.c:120-210 | whatever is read as a string is written so |
| `DotjsonUtf8.Utf8Reads` | c/dotjson/dotjson.c:69-92 | for every u up to 0xffff the bytes written read back as u in a reader of section 3 of RFC 3629, whatever follows, are all used, and are 1, 2 or 3 as it says |
| `DotjsonUtf8.SurrogatesExactly` | c/dotjson/dotjson.c:82-89 | they are a character of section 4 of RFC 3629 if and only if u is no surrogate, because surrogates are encoded each on its own |
| `DotjsonUtf8.HexExactly` | c/dotjson/dotjson.c:146-153 | a hexadecimal digit has the value of its place in the usual order, in either case, and nothing else is one |
| `DotjsonLexemes.NumberComplete` | c/dotjson/dotjson.c:331-367 | sign, digits, fraction and exponent before a byte that does not go on are read to their end |
| `DotjsonLexemes.NumberSound` | c/dotjson/dotjson.c:331-367 | whatever is read as a number is written so |
| `DotjsonDecode.DecodeNodeAt` | c/dotjson/dotjson.c:503-549 | the dispatch computes the grammar's result; 0 bytes means failure where no space was skipped |
| `DotjsonDecode.DecodeObject` | c/dotjson/dotjson.c:433-501 | the state loop, with the growing object, computes the grammar's result, failures included |
| `DotjsonDecode.DecodeArray` | c/dotjson/dotjson.c:376-431 | the same for arrays |
| `DotjsonDecode.ScanNumber` | c/dotjson/dotjson.c:331-367 | the state scan computes the number grammar |
| `DotjsonDecode.UnescapeStr` | c/dotjson/dotjson.c:120-210 | bytes used, length and, where the buffer suffices, contents; with no buffer it measures; what the bytes are is `StringComplete` and `Utf8Reads` |
| `DotjsonEncode.Encode` | c/dotjson/dotjson.c:755-767 | the length comes back whatever the buffer; one that can hold text and NUL receives exactly the text |
| `DotjsonEncode.EncodeNode` | c/dotjson/dotjson.c:664-733 | writes only inside the given range, the whole text if it fits |
| `DotjsonEncode.EncodeObject` | c/dotjson/dotjson.c:621-662 | the same for objects, in slot order |
| `DotjsonEncode.EncodeString` | c/dotjson/dotjson.c:551-619 | the same for strings, up to the first NUL |
| `DotjsonCompact.PrintedDoc` | c/dotjson/dotjson.c:551-733 | what is printed for every printable node is the text of a tree that shows it, slot by slot and item by item, with no space and with exactly the eight short escapes |
| `DotjsonTable.GetIsExact` | c/dotjson/dotjson.c:212-282 | after any sequence of insertions with distinct keys a lookup gives exactly the inserted value, or nothing for an absent key |
| `DotjsonTable.AddAllHolds` | c/dotjson/dotjson.c:465-471 | after any insertions, growth included, every entry is present exactly once, probe chains are whole and the capacity is the least power of two that holds the entries |
| `DotjsonTable.FindFinds` | c/dotjson/dotjson.c:212-233 | in a table with whole chains a search succeeds exactly when the key is present |
| `DotjsonTable.FirstFreeFinds` | c/dotjson/dotjson.c:235-249 | while there is room a free slot is found, with a crowded chain before it |
| `DotjsonTable.PutKeeps` | c/dotjson/dotjson.c:465-471 | filling it keeps every chain whole and adds exactly one entry |
| `DotjsonTable.RehashKeeps` | c/dotjson/dotjson.c:271-280 | moving entries to a larger table loses none and rebuilds the chains |
| `DotjsonTable.GetSound` | c/dotjson/dotjson.c:797-806 | with repeated keys, too, a lookup returns an inserted value of that key, and nothing only if there is none |
| `DotjsonTable.HashOfCStr` | c/dotjson/dotjson.c:46-55 | keys that compare equal hash alike |
| `DotjsonTable.HashExactly` | c/dotjson/dotjson.c:46-55 | the hash is one number modulo 2^32: to base 1313, a one, a zero for each byte and one more, plus the bytes up to the first NUL as digits, those from 128 on negative |
| `DotjsonTable.FirstFreePlace` | c/dotjson/dotjson.c:235-249 | the slot found is the first free one, going up from the hash modulo the capacity and round at the end |
| `DotjsonObject.Insert` | c/dotjson/dotjson.c:465-471 | the object in memory becomes the table with the entry added |
| `DotjsonObject.Grow` | c/dotjson/dotjson.c:251-282 | grows exactly when the object is full, doubling its capacity; otherwise the object itself |
| `DotjsonObject.Object.Find` | c/dotjson/dotjson.c:212-233 | the masked probe loop computes the search |
| `DotjsonObject.Object.SlotFor` | c/dotjson/dotjson.c:235-249 | the masked probe loop computes the first free slot |
| `DotjsonObject.Object.Get` | c/dotjson/dotjson.c:797-806 | computes the lookup |
| `DotjsonBits.MinBucket` | c/dotjson/dotjson.c:57-67 | in 64 bits, the result is the least power of two that is at least n if and only if n is at most 2^63 and n - 1 has no 32 zero bits in a row below its highest one; 0 gives 0 |
| `DotjsonBits.SmallIsDense` | c/dotjson/dotjson.c:57-67 | which every n up to 2^32 meets |
| `DotjsonBits.PowerIsDense` | c/dotjson/dotjson.c:259-262 | and which a full object of 2^k entries meets if and only if k is below 32: from 2^32 entries on growth fails |
| `DotjsonBits.MaskIsMod` | c/dotjson/dotjson.c:220-222 | masking with a power of two less one is the remainder |
| `Gorpool.StartedOnce` | go/gorpool/gorpool.go:28-78 | in every interleaving every task is called at most once |
| `Gorpool.NothingDropped` | go/gorpool/gorpool.go:28-78 | once callers and workers have nothing left to do, every task ever submitted was called once and ended |
| `Gorpool.ScheduleEnds` | go/gorpool/gorpool.go:28-78 | from any point, however callers and workers are scheduled, a fixed number of steps is left, some step is possible until then, and after it every task submitted so far was called once and ended |
| `Gorpool.StepLowers` | go/gorpool/gorpool.go:28-78 | every step of a caller or worker lowers that number by one |
| `Gorpool.QuietIsDone` | go/gorpool/gorpool.go:28-78 | nothing can move exactly when it is 0 |
| `Gorpool.IdleIndices` | go/gorpool/gorpool.go:37-52 | idle[k].idx is k, always, and no worker is listed twice |
| `Gorpool.ClaimedStays` | go/gorpool/gorpool.go:44-52 | a worker that a caller has claimed or loaded is not taken down by any step |
| `Gorpool.NeverStuck` | go/gorpool/gorpool.go:57-77 | a send never blocks, a channel never holds two tasks, no index is out of range |
| `Gorpool.IdleReused` | go/gorpool/gorpool.go:57-77 | a worker is added only by a call that found the idle list empty; any other call takes the worker that became idle last |
| `Gorpool.WorkersBounded` | go/gorpool/gorpool.go:57-77 | so at no time are there more workers, those about to start included, than there were tasks under way at one time before |
| `Gorpool.AllBusy` | go/gorpool/gorpool.go:62-75 | with none idle, workers and tasks under way are equally many |
| `Gorpool.IdleWorkerExits` | go/gorpool/gorpool.go:44-53 | a worker whose timer fired exits if and only if it is idle, and only it leaves the idle list |
| `Gorpool.TasksAdvance` | go/gorpool/gorpool.go:28-78 | a task only moves forward, from call to end |
| `Gorpool.StepKeeps` | go/gorpool/gorpool.go:28-78 | every step keeps: each worker is idle, held by one caller, loaded with one task, running one task, or gone |
| `YagwServer.ExclusiveUse` | go/yagw/server.go:207-261 | in every interleaving a descriptor is used by one worker or stands in one local queue, once in total, exactly while own is set and it was not dropped as bad |
| `YagwServer.PollsAlone` | go/yagw/server.go:242-243 | on_poll never runs twice at once on a connection |
| `YagwServer.LocalFifo` | go/yagw/server.go:221-228 | local queues are well-formed lists: the links spell the elements in order, steps append at the back or take from the front |
| `YagwServer.ChannelFifo` | go/yagw/server.go:212-238 | the channels, too, are first in, first out, and nothing in them is lost or doubled |
| `YagwServer.NoLostWakeup` | go/yagw/server.go:244-259 | when everything has settled no live descriptor is ready for something its latest on_poll said it still waits for |
| `YagwServer.EventIsAnswered` | go/yagw/server.go:309-324 | once everything has settled, a live connection that waits for what the loop reported has taken the report back since then |
| `YagwServer.StepCovers` | go/yagw/server.go:309-324 | every step keeps such a descriptor owned or on its way to a worker |
| `YagwServer.OnlyChannelsBlock` | go/yagw/server.go:212-238 | a worker stops only at empty channels, the loop only at full ones; no step lacks what it dereferences |
| `YagwWorkers.StepKeeps` | go/yagw/server.go:207-261 | every load, store, compare-and-swap, channel and link step keeps the ownership invariant |
| `YagwSession.ReadAll` | go/yagw/proto.go:44-105 | over any split of the bytes and any EAGAINs the reader returns exactly the packets written, in order, and never holds a byte of the next one; it has returned all of them when the bytes are used up, and whenever the reads give data for every byte and there is a call for every packet and every EAGAIN |
| `YagwSession.OneCall` | go/yagw/proto.go:64-105 | one call gives the next packet or none, and a script that is enough for the rest stays enough |
| `YagwSession.WriteAll` | go/yagw/proto.go:107-124 | packets appended one after another are the stream |
| `YagwPackets.PacketReader.ReadFrom` | go/yagw/proto.go:64-105 | bytes only move from the stream to the packet, up to its announced end; the answer says whether it is complete, each error has its cause, and each answer says which reads came before it: a call reads on through all data and says false only after a read that gave none; after a bad length the reader stays where it is |
| `YagwPackets.PacketReader.GetHeader` | go/yagw/proto.go:56-58 | command and sequence number of the packet read |
| `YagwPackets.PacketReader.GetBody` | go/yagw/proto.go:60-62 | its body |
| `YagwPackets.PacketReader.Reset` | go/yagw/proto.go:51-54 | nothing is held |
| `YagwPackets.WritePacket` | go/yagw/proto.go:107-124 | the buffer's bytes followed by the packet, in place if it fits, in a new array otherwise |
| `YagwPackets.DecodeEncoded` | go/yagw/proto.go:36-42 | decoding undoes encoding for bodies under 1024 bytes |
| `YagwPackets.EncodeDecoded` | go/yagw/proto.go:36-42 | encoding undoes decoding for every complete packet |
| `YagwPackets.Layout` | go/yagw/proto.go:36-42 | length, command and sequence number stand in this order, four bytes each, the low byte first, and the body behind them |
| `Dijkstra.ShortestPath` | go/alg/dijkstra.go:8-53 | terminates with the least weight of a path, or -1 exactly when there is none |
| `Dijkstra.TargetFinal` | go/alg/dijkstra.go:20-20 | the nearest unvisited vertex has its final distance |
| `Dijkstra.AllFinal` | go/alg/dijkstra.go:47-52 | with no reached vertex left every distance is final |
| `Dijkstra.RelaxFrom` | go/alg/dijkstra.go:23-33 | distances stay those of paths and the edges of the vertex become relaxed |
| `Dijkstra.FindNext` | go/alg/dijkstra.go:34-46 | the nearest unvisited reached vertex, or none |
| `Md5.GetSum` | cpp/md5/md5p.cpp:5-14 | for every message shorter than 2^32 - 64 bytes the result is the compression function folded over the message padded as in sections 3.1 and 3.2 of RFC 1321 |
| `Md5.LongMessageNeverEnds` | cpp/md5/md5p.cpp:8-11 | for every longer message the position wraps and the loop's test holds for ever |
| `Md5.MD5p.Update` | cpp/md5/md5p.cpp:96-100 | chain and counter after one more block; over any run of calls the two words are the byte count modulo 2^64 |
| `Md5.MD5p.Final` | cpp/md5/md5p.cpp:103-126 | for a tail of any length, what is hashed: the first bytes of the tail, as many as the counter is past a block boundary, and the standard's padding, in one or two blocks |
| `Md5.FinalIsRight` | cpp/md5/md5p.cpp:107-112 | that is the padded message for every compression function if and only if the tail is less than a block |
| `Md5.PaddingPlaces` | cpp/md5/md5p.cpp:107-122 | the padding is a one bit, no more zeros than needed and the bit length, the low byte first |
| `Md5.InitialBytes` | cpp/md5/md5p.h:17-20 | the initial chain is the sixteen bytes of section 3.3 of RFC 1321 |
| `Md5.OutputPlaces` | cpp/md5/md5p.cpp:128-133 | the result is the four words in their order, each with its low byte first |
| `Md5.MD5p.AddLength` | cpp/md5/md5p.h:48-53 | the two words with carry add modulo 2^64 |
| `Md5.BitCount` | cpp/md5/md5p.cpp:120-121 | the two shifted words are the length in bits modulo 2^64 |
| `Md5.FoldConcat` | cpp/md5/md5p.cpp:9-11 | the fold over whole blocks splits at every block boundary |

## Left out

- EPaxos recovery (`Prepare`, `explicitPrepare`, `recoveryDeps`): `Prepare` records no promise, so agreement across it is not what the code gives.
- EPaxos persistence, RPC, retries, timers, logging and the executor's key-value store; storing is taken to succeed.
- EPaxos integers are unbounded: wrap-around of `Seq`, indices and ballots is not modelled; `Deps` are sets; `cmds` is a partial map, so the outer allocation at go/epaxos/epaxos.go:1228 that is one row short does not appear.
- Interference: stated for runs in which the leader's attribute read (go/epaxos/epaxos.go:751) and its first store (:558) are one step; `ApartIsBlind` shows that it fails otherwise.
- StepCounts: the same.
- OrderCommands: requires that every instance reachable through Deps is stored; for one that is not, the code dereferences nil.
- SortBySeq: an insertion sort stands for `sort.Slice`; only the order and the permutation are used, so ties fall in either order.
- Regex characters are below 128, the width of a table row; `nfa_e`, which nothing calls, is left out; map iteration order is any order.
- jsoniter `UnescapeString`, `Valid` and error texts; an error is its kind.
- dotjson comments (compiled only on request), allocation and freeing; an array's spare capacity (items are a sequence); numbers are their lexemes.
- RoundTripExactly: strings hold no NUL, numbers are accepted lexemes and the keys of one object are distinct; `StringReadBack` and `NumberReadBack` say what becomes of others.
- DecodedMeans: objects with a key twice; `DecodedExactly` gives the table they become, and `GetSound` what a lookup in it may return.
- DecodeObject: texts with fewer than 2^32 colons, so that no object has 2^32 entries, from which on growth fails (`PowerIsDense`).
- DecodeNodeAt: the same.
- DecodeArray: the same.
- EncodeThenDecode: the same.
- Insert: fewer than 2^32 entries, for the same reason.
- Grow: the same.
- UnescapeStr: the 4 to 6 byte branches of `uc_2_utf8` are left out, since four hex digits spell at most 0xffff.
- Gorpool: `reserve` and the one-minute duration; a timer may fire at any time.
- Gateway sockets, timers, accept loop, recycling of freed descriptors and the reader hand-off of go/yagw/netconn.go; `on_poll` is any answer with any writes to the flags.
- The pool, the gateway's workers and its event loop are values in state machines: a step is one mutex section, channel operation or atomic access, and update in place inside a step is not modelled; decoded dotjson nodes are values, too, once their object is complete.
- Memory order of the atomics: every interleaving is sequentially consistent.
- Md5 compression (cpp/md5/md5p.cpp:26-99) is any function of chain and block; words are little-endian and `unsigned long` has 32 bits, as the header asserts.
- The thread pool in C, the Rust notifier, the C# and protobuf JSON layers, window and driver code: near duplicates, thin layers, or weaker properties than those above.
