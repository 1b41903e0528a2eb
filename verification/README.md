# nestty's workflow runtime, modelled in Dafny

nestty's headless runtime is a small automation engine: triggers with conditions written in a little
boolean language listen on an event bus, run actions, and may await a reply; plugin services are
supervised processes that offer such actions; GUIs join the daemon over a socket and exchange events
with it.  This project models that runtime and proves what it is relied on for.

| modules | subject |
|---|---|
| `ConditionSyntax`, `ConditionParser`, `ConditionLexer`, `ConditionEval`, `Utf8` | the condition language: lexer, parser and evaluator, their round trips and the laws of evaluation |
| `EventPattern`, `Ordering` | kind patterns and their reduction to an exact, disjoint, minimal cover |
| `Interpolation` | `{token}` substitution in texts and JSON templates |
| `AwaitMachine`, `AwaitCorrelation`, `AwaitTick`, `AwaitedEvents`, `TriggerEngine` | firings, preflights and pending awaits: conservation over runs, correlation, one pump tick, what is published, and the engine object |
| `EventBus`, `PumpDelivery`, `PumpInterleaving`, `TriggerSubscriptions` | the bus, and delivery to the dispatcher across hot reloads: by whole reloads and drains, and with each channel operation apart |
| `Supervisor`, `ServiceRouting`, `WaiterPermits`, `Provides` | the service protocol under every interleaving, what becomes of each invocation, reply waiters, ownership of action names |
| `ActionRegistry`, `DispatchPool`, `CompletionLaw` | dispatch and the bounded pool, as objects and as an interleaved system, and what the await machine makes of their publications |
| `GuiRegistry`, `GuiInvoke`, `Bridge`, `BridgeDelivery`, `Framing` | registered GUIs, invocations of one, two-way bridging, newline framing |
| `SplitTree` | in-place surgery on the split tree of a tab |

A string is the sequence of its UTF-8 bytes.  Code that runs alone under its locks is a class or a
method with the loops of the original, proved against a specification function.  Code whose point is
the interleaving of threads is a state machine with one step for each critical section or channel
operation; its theorems are over all runs.  (`PumpDelivery` takes a reload or a drain as one step, as
the methods of the pump's object are specified; `PumpInterleaving` takes them apart.)  What lies outside
the code, clocks, child processes, handlers and peers, may do anything at any time.

Findings that the proofs made exact:

- The exit of an old child is not told from that of a newer one and stops the newer instance, or aborts
  its start.  A running instance is safe until its own child exits iff no other child is alive
  (`Supervisor.KeptUntilOwnExitIff`), and over a whole run instances are safe iff no start is claimed over
  a living child (`Supervisor.ForeignExitIffOverlap`).  No buffered invocation is ever stranded by it.
- The rule that a service is not sent actions it did not claim holds of invocations made and routed while
  one handshake lasts (`ServiceRouting.NegotiatedHandedIff`), but not of those made before the handshake
  or buffered (`ServiceRouting.StaleSnapshotHandsOver`, `ServiceRouting.UnclaimedBufferedHanded`).
- Two services of one plugin under the same name lose the first one's actions to nobody
  (`Provides.ApprovedIffNotOverwritten`).
- A completion promotes its own firing's await exactly when that firing is the oldest outstanding one
  of its action (`AwaitCorrelation.PromotesOwnIffOldest`); out of order it takes the other's result
  (`AwaitCorrelation.OutOfOrderMispairs`).  Over a whole run results stay with their firings iff the
  successful completions come in turn (`AwaitCorrelation.PairedIffInOrder`).
- The comment on `drain_into` promises that a reply in the same tick never meets an unpromoted preflight.
  All registry completions are in one class of the sort, though, so an await of another action's
  completion is lost when that one is drained first (`AwaitTick.CompletionReplyLost`).  Safe in every
  drain order are exactly the replies that are no registry completion, and the completion that promotes
  the entry itself (`AwaitTick.EveryOrderIff`).  The model follows the code.
- A reply that the reader resolved is returned iff its wait did not time out and its request was sent
  (`GuiInvoke.ResolvedIsAnswerIff`): one that came in time can still be dropped
  (`GuiInvoke.LostBeforeTimeout`).
- A waiter is turned away with a permit free iff those admitted and those still to subtract reach the
  limit together (`WaiterPermits.RefusedIff`), which happens at every limit
  (`WaiterPermits.SpuriousRejection`).
- A double negation inside a compared group can be dropped iff it stands on a bool
  (`ConditionEval.DroppableIff`, `ConditionEval.DroppableEverywhereIff`), while anywhere a bool is needed
  it always can (`ConditionEval.DeMorgan`).
- An event published while the pump drains waits for the next drain if its receiver has been passed, and
  is lost if a reload drops that receiver first (`PumpInterleaving.DeliveredIffCaught`).
- The comment on `close_panel` promises the sibling to focus; the code gives none when the closed leaf
  is a child of the root (`SplitTree.FocusTargetExact`).  The model follows the code.

## Model

| member | source | states |
|---|---|---|
| `ConditionLexer.LexString` | `nestty-core/src/condition.rs:239-281` | the string scanner with its growing buffer computes `StringBody`: the unescaped text and the bytes used, or the first error |
| `ConditionLexer.LexNumber` | `nestty-core/src/condition.rs:283-306` | the number scanner takes the sign, the digits, at most one dot and the digits after it, and refuses a sign or dot alone |
| `ConditionLexer.LexIdent` | `nestty-core/src/condition.rs:308-322` | the identifier scanner takes the longest run of identifier bytes |
| `ConditionLexer.Next` | `nestty-core/src/condition.rs:133-237` | one turn of the lexer loop: a token, a space skipped, or an error, and where the scan goes on |
| `ConditionLexer.Lex` | `nestty-core/src/condition.rs:133-237` | the loop appends exactly the tokens that the source denotes from each position, or gives the first error |
| `ConditionLexer.UnescapesEscape` | `nestty-core/src/condition.rs:239-281` | scanning the escaped form of any UTF-8 text, followed by a quote, gives the text back and stops after the quote |
| `ConditionLexer.EverySpellingRead` | `nestty-core/src/condition.rs:239-281` | so is every other way of writing a text: each byte raw, or by one of the five escapes |
| `ConditionLexer.ReadIsSpelling` | `nestty-core/src/condition.rs:239-281` | and whatever a literal is read from is such a spelling of it |
| `ConditionLexer.TokenReadBack` | `nestty-core/src/condition.rs:133-322` | every lexable token, rendered and followed by a space, is read back as itself |
| `ConditionLexer.TokensReadBack` | `nestty-core/src/condition.rs:133-237` | so is every list of lexable tokens |
| `ConditionLexer.LexedAreLexable` | `nestty-core/src/condition.rs:133-322` | conversely every token the lexer gives is lexable: identifiers are no keywords, numerals have a digit, strings are UTF-8 |
| `Utf8.ValidIffEncoded` | `nestty-core/src/condition.rs:239-281` | the text check of a literal passes iff its bytes are the UTF-8 encoding of some sequence of Unicode scalar values |
| `ConditionLexer.LiteralNeverMalformed` | `nestty-core/src/condition.rs:239-281` | the malformed-UTF-8 error of a literal cannot arise when the source is UTF-8, as a Rust string is |
| `ConditionParser.Parser.Or` | `nestty-core/src/condition.rs:344-352` | the left-associative loop over disjunction returns what `ParseOr` does and leaves the position there |
| `ConditionParser.Parser.And` | `nestty-core/src/condition.rs:354-362` | the same for `&&` |
| `ConditionParser.Parser.Not` | `nestty-core/src/condition.rs:364-371` | the recursion over `!` |
| `ConditionParser.Parser.Cmp` | `nestty-core/src/condition.rs:373-391` | an atom, or two around one comparison operator, which does not chain |
| `ConditionParser.Parser.Atom` | `nestty-core/src/condition.rs:393-443` | literals, groups and references, with the same errors in the same order |
| `ConditionParser.Parse` | `nestty-core/src/condition.rs:84-95` | the whole parse, trailing input rejected |
| `ConditionParser.OrSound` | `nestty-core/src/condition.rs:344-352` | what `parse_or` returns is canonical and prints to exactly the tokens it consumed |
| `ConditionParser.OrComplete` | `nestty-core/src/condition.rs:344-352` | on the printed form of a canonical tree, before a token that cannot go on, `parse_or` reaches that tree |
| `ConditionParser.ParseInvertsPrint` | `nestty-core/src/condition.rs:84-95` | `parse` succeeds with `e` on a token sequence iff `e` is canonical and prints to exactly that sequence |
| `ConditionParser.GrammarUnambiguous` | `nestty-core/src/condition.rs:331-444` | no token sequence is the printed form of two canonical trees |
| `ConditionParser.RejectedIffUnprintable` | `nestty-core/src/condition.rs:84-95` | a token sequence is rejected iff it is no canonical tree's printed form |
| `ConditionLexer.ParseSource` | `nestty-core/src/condition.rs:84-95` | lexing and parsing a source text computes `ParseText` |
| `ConditionLexer.TextRoundTrip` | `nestty-core/src/condition.rs:84-95` | a canonical tree with lexable leaves, rendered to text with spaced tokens and escaped strings, parses back to itself |
| `ConditionLexer.DenotedTrees` | `nestty-core/src/condition.rs:84-444` | those are exactly the trees that some source text denotes |
| `ConditionLexer.ReparseIsStable` | `nestty-core/src/condition.rs:84-95` | rendering what was parsed never changes what it parses to |
| `ConditionEval.NumbersCompare` | `nestty-core/src/condition.rs:541-576` | numbers compare by their size under all six operators, integers and floats alike |
| `ConditionEval.Trichotomy` | `nestty-core/src/condition.rs:541-576` | of smaller, equal and greater exactly one holds of two numbers |
| `ConditionEval.OthersCompare` | `nestty-core/src/condition.rs:541-576` | with an operand that is no number equality is that of the values and an ordering fails |
| `ConditionEval.ReferencesMean` | `nestty-core/src/condition.rs:497-539` | `event` and a path give the payload's member, step by step, and null where there is none; the two context fields; all else is null |
| `ConditionEval.NnfPreserves` | `nestty-core/src/condition.rs:448-495` | pushing negations inwards, flipping connectives and operators, keeps the boolean result and whether evaluation fails |
| `ConditionEval.NnfNormal` | `nestty-core/src/condition.rs:448-495` | and leaves negations only on bare references and non-boolean literals, and no group where a bool is needed |
| `ConditionEval.RegroupOrOk` | `nestty-core/src/condition.rs:484-495` | putting groups exactly where the grammar needs them gives a canonical tree with the same value and failures |
| `ConditionEval.NormalFormText` | `nestty-core/src/condition.rs:84-110` | every condition text has a parsable normal form, itself normal once looked at through its groups, that holds, fails to hold, or fails to evaluate in the same environments |
| `ConditionEval.DeMorgan` | `nestty-core/src/condition.rs:448-483` | De Morgan and double negation at boolean positions, failures included, although each side short-circuits on its own |
| `ConditionEval.DroppableIff` | `nestty-core/src/condition.rs:448-576` | in a given environment a double negation inside a compared group can be dropped, whatever the operator, other operand and side, iff what it stands on, its groups taken off, is a bool there |
| `ConditionEval.DroppableEverywhereIff` | `nestty-core/src/condition.rs:448-576` | it can be dropped in every environment iff that is a bool by its shape |
| `ConditionEval.DoubleNegationMattersInOperands` | `nestty-core/src/condition.rs:484-495` | a failing input in any environment: `(!!"x") == null` fails to evaluate, `("x") == null` is false |
| `ConditionEval.SafeConditionsNeverFail` | `nestty-core/src/condition.rs:448-576` | without ordering operators, and with bools by shape where bools are needed, evaluation never fails |
| `EventPattern.CoveringPatterns` | `nestty-core/src/trigger.rs:598-619` | the sort, the dedup and the filtering loop compute `Covering` |
| `EventPattern.PatternsMean` | `nestty-core/src/event_bus.rs:296-306` | what patterns mean: `*` any kind, `p.*` the kinds that go on after `p` and a dot, any other text itself |
| `EventPattern.CoversIsInclusion` | `nestty-core/src/trigger.rs:621-639` | `pattern_covers` on two different patterns is exactly inclusion of the languages that `pattern_matches` gives them |
| `EventPattern.CoverExact` | `nestty-core/src/trigger.rs:598-619` | some pattern of the cover matches a kind iff some given pattern does |
| `EventPattern.CoverDisjoint` | `nestty-core/src/trigger.rs:598-619` | no kind is matched by two patterns of the cover |
| `EventPattern.CoverMinimal` | `nestty-core/src/trigger.rs:598-619` | each pattern of the cover matches a kind that no other of them does |
| `EventPattern.CoverDependsOnSet` | `nestty-core/src/trigger.rs:598-619` | the cover is a sorted subset of the given patterns and depends only on their set |
| `Interpolation.InterpolateString` | `nestty-core/src/trigger.rs:753-785` | the scanning loop computes `Interpolated`: the segmentation of the template, each hole filled or left as it stands |
| `Interpolation.DotPathMeans` | `nestty-core/src/trigger.rs:823-834` | a name without dots is a member, and before a dot the member to go on from |
| `Interpolation.EventTokenMeans` | `nestty-core/src/trigger.rs:718-842` | an event token gives the payload's member first, and only without one the kind, source or time of the event; strings bare, all else printed |
| `Interpolation.OtherTokensMean` | `nestty-core/src/trigger.rs:718-842` | what the action result and context tokens give |
| `Interpolation.ReadingUnique` | `nestty-core/src/trigger.rs:753-785` | the segmentation is fixed by the template alone and is the only well-cut one, so inserted text is never rescanned |
| `Interpolation.IdentityWhenUnresolved` | `nestty-core/src/trigger.rs:753-785` | a template none of whose tokens resolves is returned byte for byte |
| `Interpolation.DistributesOverConcat` | `nestty-core/src/trigger.rs:753-785` | interpolation distributes over concatenation when the left part leaves no brace open |
| `Interpolation.TypedAgreesWithUntyped` | `nestty-core/src/trigger.rs:641-716` | over whole JSON templates, turning the single-token leaves of the typed form into strings gives the untyped form |
| `Interpolation.TypedMeans` | `nestty-core/src/trigger.rs:641-716` | a template that is a single token keeps the type of what the token yields, any other text is filled in as text, and arrays and objects keep their shape |
| `TriggerEngine.TriggerEngine.constructor` | `nestty-core/src/trigger.rs:195-215` | a new engine has no triggers and empty pools |
| `TriggerEngine.TriggerEngine.SetTriggers` | `nestty-core/src/trigger.rs:226-252` | triggers whose condition does not parse are dropped, and both pools are cleared |
| `TriggerEngine.TriggerEngine.TryPromoteOrDropPreflight` | `nestty-core/src/trigger.rs:398-457` | a trusted completion promotes the oldest preflight of its action, a failure drops it, nothing else moves |
| `TriggerEngine.TriggerEngine.TryMatchPendingAwaits` | `nestty-core/src/trigger.rs:459-503` | the first pending entry that claims the event is removed and its `.awaited` event published; deadlines are not looked at |
| `TriggerEngine.TriggerEngine.RegisterPreflightAwait` | `nestty-core/src/trigger.rs:373-396` | the new entry holds the reply's criteria still uninterpolated, the event, the context and the deadline counted from the firing |
| `TriggerEngine.TriggerEngine.Dispatch` | `nestty-core/src/trigger.rs:273-367` | await passes first, then exactly the triggers that fire, in order; returns how many the sink accepted and what it was asked |
| `TriggerEngine.FireExact` | `nestty-core/src/trigger.rs:273-396` | the exact set and order: a trigger of the snapshot is invoked iff kind, payload, both gates and the tree its condition text parses to say so, once, in order, parameters filled in; accepted ones are counted, and those with an await register it, deadline counted from now |
| `TriggerEngine.CompilesExactly` | `nestty-core/src/trigger.rs:226-252` | of the configured triggers exactly those whose condition is absent or parses are compiled, in order |
| `TriggerEngine.TriggerEngine.SweepPendingAwaits` | `nestty-core/src/trigger.rs:505-546` | expired entries leave both pools, and a default is published where the policy asks for it |
| `TriggerEngine.RetainPreflight` | `nestty-core/src/trigger.rs:505-546` | the retain loop splits the preflights into kept and lapsed, in order |
| `TriggerEngine.RetainPending` | `nestty-core/src/trigger.rs:505-546` | the retain loop splits the pending entries into kept and lapsed, in order |
| `TriggerEngine.InvokedIsTrusted` | `nestty-core/src/trigger.rs:273-367` | whatever conditions say, an action runs only for a trigger that matches, accepts external events if this is one, and may run it if privileged |
| `TriggerEngine.EntriesNumbered` | `nestty-core/src/trigger.rs:273-396` | a dispatch registers at most one entry for each trigger that fired |
| `TriggerEngine.DispatchConserves` | `nestty-core/src/trigger.rs:273-367` | a whole dispatch keeps the conservation ledger and no fate is revised |
| `AwaitMachine.StepConserves` | `nestty-core/src/trigger.rs:226-546` | each promotion, match, registration, sweep or clear keeps the ledger |
| `AwaitMachine.RunConserves` | `nestty-core/src/trigger.rs:226-546` | every run keeps the ledger: firings split into preflights, pending entries and fates, entries are what their firing registered, events speak for their firing |
| `AwaitMachine.EachFiringOnce` | `nestty-core/src/trigger.rs:273-546` | at each moment a firing is in exactly one place, and it has published exactly when it was matched or expired with a default, never twice |
| `AwaitedEvents.AwaitedTells` | `nestty-core/src/trigger.rs:398-580` | over every run, each published event is of the step that settled its firing: with the payload of the matching event, which met the template with the result filled in, or null after the deadline; the action result iff there is one; every other member from the original payload |
| `AwaitedEvents.FirstWaitingIsMatched` | `nestty-core/src/trigger.rs:459-503` | conversely, in every state of every run, an event settles the first entry that waits for it, no other, and none if none does |
| `AwaitTick.IntakeIsNarrow` | `nestty-core/src/trigger.rs:273-294` | an event takes at most one preflight, resolves at most one pending entry and publishes at most once; an external event does nothing |
| `AwaitTick.TickKeeps` | `nestty-daemon/src/trigger_pump.rs:126-142` | a whole drained batch keeps the ledger, and fates are final |
| `AwaitCorrelation.FifoCorrelation` | `nestty-core/src/trigger.rs:373-454` | if trusted completions of an action come in firing order and none of its preflights is swept or cleared, every promoted entry and published event carries its own invocation's result, whatever other actions do |
| `AwaitCorrelation.PromotesOwnIffOldest` | `nestty-core/src/trigger.rs:398-454` | exactly when a completion promotes its own firing: that firing is the oldest outstanding one of the action |
| `AwaitCorrelation.PairedIffInOrder` | `nestty-core/src/trigger.rs:373-503` | over every run without sweep or clear of the action's preflights, completions belonging to firings in any order and results differing: promoted entries and published events carry their own results at each moment iff each successful completion comes in its firing's turn |
| `AwaitCorrelation.OutOfOrderMispairs` | `nestty-core/src/trigger.rs:398-454` | a failing run from the start: two firings of one action whose second completion comes first, and the first firing is promoted with the second one's result |
| `AwaitTick.TickMatchedIff` | `nestty-core/src/trigger.rs:273-503` | for any batch, exactly when the oldest preflight of an action ends the tick matched: the first completion of the action is a success, and that event or one dispatched after it meets the promoted criteria and is claimed by no entry ahead |
| `AwaitTick.SameTickReply` | `nestty-daemon/src/trigger_pump.rs:121-142` | a completion and a reply drained in one batch, claimed by no entry ahead, resolve the await by the end of the tick if the reply is no registry completion or is not drained before the completion; if nothing else answers, exactly then |
| `AwaitTick.SameTickReplyByKind` | `nestty-daemon/src/trigger_pump.rs:121-142` | the same from a condition on kinds alone, with nothing said about intermediate states |
| `AwaitTick.EveryOrderIff` | `nestty-daemon/src/trigger_pump.rs:121-142` | a sole reply resolves the await in every drain order iff it is no registry completion, or is the completion of the action itself |
| `AwaitTick.CompletionReplyLost` | `nestty-daemon/src/trigger_pump.rs:121-142` | a failing input: the await of another action's completion, lost when that is drained before the completion that promotes the entry, and kept the other way round |
| `PumpDelivery.SortedPrioritizes` | `nestty-daemon/src/trigger_pump.rs:126-142` | sorting what was drained, completions first, is the dispatch order that the tick results are about |
| `TriggerSubscriptions.DrainedReplyResolves` | `nestty-daemon/src/trigger_pump.rs:121-142` | the same for what a drain takes from the receivers: with the first completion of the action taken and a reply, the await ends matched unless the reply is a completion taken earlier; if nothing else taken answers, exactly then |
| `EventBus.EventBus.SubscribeWithBuffer` | `nestty-core/src/event_bus.rs:195-222` | a new subscriber with its own empty channel, bounded or not |
| `EventBus.EventBus.PublishEvent` | `nestty-core/src/event_bus.rs:232-261` | the history ring keeps the latest events, each matching connected subscriber with room gets the event once, dead ones are removed |
| `EventBus.EventBus.FanOut` | `nestty-core/src/event_bus.rs:232-261` | the retain loop computes both the channels and the surviving subscribers |
| `EventBus.EventBus.TryRecv` | `nestty-core/src/event_bus.rs:107-111` | the oldest queued event, if any |
| `EventBus.EventBus.History` | `nestty-core/src/event_bus.rs:272-280` | exactly the events of the ring that pass the time and kind filters, oldest first |
| `EventBus.FanOk` | `nestty-core/src/event_bus.rs:232-261` | the channel of a subscriber gets the event iff the subscriber accepts it, and no other channel changes |
| `EventBus.RetainedOk` | `nestty-core/src/event_bus.rs:232-261` | a subscriber is dropped iff a matching delivery finds its receiver gone |
| `EventBus.KeptExactly` | `nestty-core/src/event_bus.rs:272-280` | the filtered history is exactly the events, at increasing places, that are recent enough and of a kind asked for |
| `EventBus.SubscribedAreServed` | `nestty-core/src/event_bus.rs:195-261` | a new subscriber gets the next matching event unless its buffer has no room at all |
| `EventBus.DroppedArePruned` | `nestty-core/src/event_bus.rs:232-261` | one whose receiver was dropped gets nothing more and is removed by the next event it would have got |
| `TriggerSubscriptions.TriggerSubscriptions.ReconcileTriggers` | `nestty-daemon/src/trigger_pump.rs:96-119` | unneeded receivers are dropped, needed ones kept, missing ones subscribed: the `Reconcile` step of the delivery machine |
| `TriggerSubscriptions.SubscribedIff` | `nestty-daemon/src/trigger_pump.rs:96-119` | after a reload some receiver takes a kind iff some trigger has a use for it: its own kind, its reply's, or the completions of its action when it awaits |
| `TriggerSubscriptions.TriggerSubscriptions.DrainInto` | `nestty-daemon/src/trigger_pump.rs:126-142` | all receivers are emptied, completions handed over first: the `Drain` step |
| `TriggerSubscriptions.TriggerSubscriptions.TakeAll` | `nestty-daemon/src/trigger_pump.rs:126-142` | every queue is emptied once, whatever the iteration order |
| `PumpDelivery.ReconcileInv` | `nestty-daemon/src/trigger_pump.rs:96-119` | a reload leaves exactly the cover subscribed; a receiver kept through it keeps its queue, a new one starts empty |
| `PumpDelivery.RunInv` | `nestty-daemon/src/trigger_pump.rs:96-142` | queues hold genuine, undelivered, matching events in publication order, over every run of publishes, reloads, drains and other subscribers |
| `PumpDelivery.AtMostOnce` | `nestty-daemon/src/trigger_pump.rs:96-142` | over every run no publication is dispatched twice |
| `PumpDelivery.DeliveredIffHeld` | `nestty-daemon/src/trigger_pump.rs:96-142` | an event is dispatched, once, iff a matching receiver was held from its publication to the next drain; otherwise never |
| `PumpDelivery.NeverDelivered` | `nestty-daemon/src/trigger_pump.rs:96-142` | what is neither queued nor delivered stays lost |
| `PumpInterleaving.MoveKeeps` | `nestty-daemon/src/trigger_pump.rs:96-142` | with each drop, subscription and receive a step of its own, and others publishing in between: every step keeps the invariant, and what a drain holds is genuine, new and in no queue |
| `PumpInterleaving.FineAtMostOnce` | `nestty-daemon/src/trigger_pump.rs:96-142` | over every such run no publication is handed over twice |
| `PumpInterleaving.WaitsOrGone` | `nestty-daemon/src/trigger_pump.rs:96-142` | until the next drain begins, what the drain under way will not take stays queued exactly as long as its receiver is not dropped |
| `PumpInterleaving.DeliveredIffCaught` | `nestty-daemon/src/trigger_pump.rs:96-142` | an event published at any point, also within a reload or a drain, is handed over by the end of the next drain iff a matching receiver was there and either the drain under way had yet to come to it or no reload dropped it before that next drain |
| `PumpInterleaving.ReloadRuns` | `nestty-daemon/src/trigger_pump.rs:96-119` | from every state at rest a reload can be done by single moves, and leaves exactly the cover subscribed, kept queues as they were |
| `PumpInterleaving.DrainRuns` | `nestty-daemon/src/trigger_pump.rs:126-142` | and a drain, which hands over exactly what was queued |
| `Supervisor.StepKeeps` | `nestty-daemon/src/service_supervisor.rs:503-1092` | each lock-granular step of invokers, the spawner and child exits keeps the invariant |
| `Supervisor.NoStrandedInvocation` | `nestty-daemon/src/service_supervisor.rs:503-1092` | over every interleaving before shutdown: a non-empty startup buffer implies an undrained start attempt, a queued request or an invoker about to send one; it never exceeds 64; the negotiated set is there exactly while running, and then the channel is open |
| `Supervisor.QuiescentDrained` | `nestty-daemon/src/service_supervisor.rs:846-857` | once the spawner is done with the service, every buffered invocation has left the buffer exactly once, in order |
| `Supervisor.NotResurrectedByActions` | `nestty-daemon/src/service_supervisor.rs:1037-1072` | a stopped or failed service that no action may activate and nobody is starting stays down, whatever it did before and whatever old children live, over every run in which nobody else asks for a start; nothing more is ever buffered for it |
| `ServiceRouting.OneFate` | `nestty-daemon/src/service_supervisor.rs:965-1092` | over every run each invocation is undecided, handed over directly, buffered or refused, exactly one of these, and is handed to the service at most once |
| `ServiceRouting.RoutedIff` | `nestty-daemon/src/service_supervisor.rs:965-1072` | over every run, which of these: degraded iff the negotiated set when it was made lacks the action; else handed over iff the service runs when it is routed, unavailable iff it is down and the action cannot wake it, buffer full iff it would wait and 64 do, buffered iff it would wait and fewer do |
| `ServiceRouting.ActsOnce` | `nestty-daemon/src/service_supervisor.rs:1016-1092` | an invocation asks for at most one start, and its caller hands it over at most once |
| `ServiceRouting.ReturnsOnce` | `nestty-daemon/src/service_supervisor.rs:1078-1092` | an invocation returns once, and its answer stands |
| `ServiceRouting.NegotiatedHandedIff` | `nestty-daemon/src/service_supervisor.rs:965-1003` | when no handshake completes in between, a running service is handed exactly the invocations in its negotiated set |
| `ServiceRouting.StaleSnapshotHandsOver` | `nestty-daemon/src/service_supervisor.rs:983-1022` | a failing run: across a handshake an invocation is handed over although the set lacks its action |
| `ServiceRouting.StaleSnapshotRefuses` | `nestty-daemon/src/service_supervisor.rs:983-1003` | another: one with the set of an earlier instance is refused although the present set holds its action |
| `ServiceRouting.DrainedIff` | `nestty-daemon/src/service_supervisor.rs:846-857` | over every run, a buffered invocation is handed over iff it leaves the buffer after a start that succeeded and before its deadline |
| `ServiceRouting.UnclaimedBufferedHanded` | `nestty-daemon/src/service_supervisor.rs:846-857` | a failing run: a buffered invocation is handed over although the service did not claim its action |
| `Supervisor.ExposedIffSecondChild` | `nestty-daemon/src/service_supervisor.rs:862-883` | in every reachable state with an instance that runs or is initializing: the exit of a child not its own can end it iff a second child is alive |
| `Supervisor.ForeignExitIffOverlap` | `nestty-daemon/src/service_supervisor.rs:513-527` | over every run: a foreign exit can at some point end an instance or abort a start attempt iff a start is claimed while an old child is alive |
| `Supervisor.ForeignExitIffSpawnOverlap` | `nestty-daemon/src/service_supervisor.rs:545-628` | over every run: a foreign exit can at some point end an instance that has its own child iff a child is spawned while another is alive |
| `Supervisor.KeptUntilOwnExitIff` | `nestty-daemon/src/service_supervisor.rs:862-883` | every run that goes on from a reachable running state without the exit of its own child leaves it running iff no other child is alive |
| `Supervisor.LateExitStopsNewerInstance` | `nestty-daemon/src/service_supervisor.rs:862-883` | a failing run: the late exit of a child whose start had failed stops a newer, running instance while its own child lives on |
| `Supervisor.LateExitAbortsStart` | `nestty-daemon/src/service_supervisor.rs:862-883` | another: the late exit comes between claim and spawn, so no child is spawned over another, and the start fails all the same |
| `WaiterPermits.AdmittedWithinLimit` | `nestty-daemon/src/service_supervisor.rs:1108-1121` | admitted waiters never exceed the limit although the counter overshoots, and it returns to their number |
| `WaiterPermits.RefusedIff` | `nestty-daemon/src/service_supervisor.rs:1108-1121` | in every state of every run: a thread is turned away iff those admitted and those still to subtract reach the limit together; with none of the latter, iff all permits are held |
| `WaiterPermits.CounterIsBalance` | `nestty-daemon/src/service_supervisor.rs:1108-1121` | over every run the counter is what was added less what was subtracted, and zero again when nobody is admitted or about to subtract |
| `WaiterPermits.SpuriousRejection` | `nestty-daemon/src/service_supervisor.rs:1108-1121` | at every limit there is a run after which no permit is held and the next thread is turned away |
| `Provides.ResolveProvides` | `nestty-daemon/src/service_supervisor.rs:190-261` | the sort and the nested loops compute the approved actions and the sorted conflict list |
| `Provides.WalkPlugin` | `nestty-daemon/src/service_supervisor.rs:222-255` | the loop over one plugin's services |
| `Provides.WalkService` | `nestty-daemon/src/service_supervisor.rs:226-253` | the loop over one service's actions: first taker owns, the same plugin is skipped, another one loses |
| `Provides.SortConflicts` | `nestty-daemon/src/service_supervisor.rs:258-260` | the map's values, sorted by action |
| `Provides.SingleOwner` | `nestty-daemon/src/service_supervisor.rs:190-261` | with distinct plugin names and distinct service names within a plugin, every declared action is approved for exactly one service, once, of the lexically least plugin declaring it |
| `Provides.ApprovedIffNotOverwritten` | `nestty-daemon/src/service_supervisor.rs:224-254` | without that: an action is approved for anyone iff no later service has the plugin and service name of its first declarer |
| `Provides.SameServiceNameLosesAction` | `nestty-daemon/src/service_supervisor.rs:224-254` | a concrete plugin whose action is approved for nobody |
| `Provides.ConflictsExact` | `nestty-daemon/src/service_supervisor.rs:220-260` | the conflict list is sorted, holds exactly the actions declared under two names, with the least as winner and all others as losers in order |
| `Provides.OrderIrrelevant` | `nestty-daemon/src/service_supervisor.rs:190-203` | any permutation of the plugins gives the same result when no two different ones share name and directory |
| `ActionRegistry.Registry.Register` | `nestty-core/src/action_registry.rs:97-160` | a name gets its handler, an earlier one is replaced |
| `ActionRegistry.Registry.TryDispatch` | `nestty-core/src/action_registry.rs:204-253` | unregistered names are refused without effect; otherwise the job is queued, or publication and responder follow in that order, with the handler's outcome or, when rejected, with `overloaded` |
| `ActionRegistry.ThreadPool.TryExecute` | `nestty-core/src/thread_pool.rs:74-83` | a job is accepted iff the pool is open and the queue below capacity, and is handed back otherwise |
| `ActionRegistry.ThreadPool.Shutdown` | `nestty-core/src/thread_pool.rs:103-105` | closing keeps the queue |
| `ActionRegistry.ThreadPool.WorkerLoop` | `nestty-core/src/thread_pool.rs:126-136` | a lone worker runs every accepted job in order |
| `ActionRegistry.AnsweredInOrder` | `nestty-core/src/thread_pool.rs:126-136` | and so answers each once, in the order accepted |
| `ActionRegistry.CallEffects` | `nestty-core/src/action_registry.rs:204-329` | over every interleaving, the log shows of each dispatch a beginning of the effects the object makes for it, in the same order, and all of them once its responder has fired, whoever ran or rejected the job |
| `CompletionLaw.KindIsRead` | `nestty-core/src/action_registry.rs:325-347` | the published kind, read back by the await machine, is the completion of exactly that action, a success iff the outcome is a value |
| `CompletionLaw.CompletionMovesAwait` | `nestty-core/src/action_registry.rs:325-347` | for every publication of every run: its event promotes the oldest await of that action with the value, or drops it as failed |
| `CompletionLaw.DispatchTold` | `nestty-core/src/action_registry.rs:204-347` | over every run, one dispatch from request to answer: no effect for an unregistered name; else one publication iff there is a bus and the action is not silent, `.completed` iff a value, then one answer of the same outcome, which is what the handler gave, or `overloaded` from a full or shut pool |
| `CompletionLaw.RouteIff` | `nestty-core/src/action_registry.rs:204-253` | over every run where a dispatch goes: caller, thread, queue iff the pool has room and nobody shut it down, and `overloaded` otherwise, each exactly |
| `CompletionLaw.RegisteredLast` | `nestty-core/src/action_registry.rs:97-160` | over every run a name stands for the entry registered last under it |
| `DispatchPool.StepKeeps` | `nestty-core/src/thread_pool.rs:74-136` | each step of callers, workers, registration and shutdown keeps the invariant |
| `DispatchPool.AnsweredAtMostOnce` | `nestty-core/src/action_registry.rs:204-253` | over every interleaving a responder fires at most once and only after its publication, of the same outcome |
| `DispatchPool.PoolConserves` | `nestty-core/src/thread_pool.rs:74-136` | accepted jobs are those queued, held or finished; the queue is within capacity, the active count within the workers |
| `DispatchPool.InternalStepsDecrease` | `nestty-core/src/thread_pool.rs:126-136` | every step that needs nobody outside leaves strictly less to do |
| `DispatchPool.QuiescentAnswered` | `nestty-core/src/thread_pool.rs:74-136` | where no such step is possible every registered dispatch has been answered |
| `DispatchPool.ExactlyOnce` | `nestty-core/src/action_registry.rs:204-253` | after any run and the internal steps it leaves, with or without shutdown: one responder call for each dispatch that returned true, one publication before it iff not silent and with a bus, and no accepted job unfinished |
| `GuiRegistry.GuiRegistry.Register` | `nestty-daemon/src/gui_registry.rs:234-270` | the client is listed last and becomes primary iff it wants to and there is none |
| `GuiRegistry.GuiRegistry.Unregister` | `nestty-daemon/src/gui_registry.rs:291-315` | the client leaves the listing; if it was primary the promotion scan picks the next |
| `GuiRegistry.GuiRegistry.Route` | `nestty-daemon/src/gui_registry.rs:318-340` | a method goes to its target or else to the primary, if that one has the capability |
| `GuiRegistry.LatestWillingIs` | `nestty-daemon/src/gui_registry.rs:298-304` | the reverse scan finds the willing client with the last position, and none only if there is none |
| `GuiRegistry.PrimaryOverRuns` | `nestty-daemon/src/gui_registry.rs:234-315` | over every run `order` is a duplicate-free listing of the clients and the primary is absent iff none wants to be it |
| `GuiRegistry.PrimaryStable` | `nestty-daemon/src/gui_registry.rs:234-315` | a primary stays primary until it unregisters |
| `GuiRegistry.PromotesLatest` | `nestty-daemon/src/gui_registry.rs:291-315` | and then the willing client registered latest of those left takes over |
| `GuiRegistry.RouteIff` | `nestty-daemon/src/gui_registry.rs:318-340` | over every run the exact condition of each answer: to the target, or to the primary without one, iff registered and capable; and of each refusal |
| `GuiInvoke.StepKeeps` | `nestty-daemon/src/gui_registry.rs:125-215` | each lock-granular step of invokers, the reader, timeouts and the disconnect keeps the invariant |
| `GuiInvoke.ReturnsOnce` | `nestty-daemon/src/gui_registry.rs:125-215` | an invocation returns at most once, is then no longer pending, is resolved at most once, and returns only a reply to its own id |
| `GuiInvoke.NothingPendingAfterDisconnect` | `nestty-daemon/src/gui_registry.rs:125-215` | after the disconnect nothing is ever pending again |
| `GuiInvoke.OwnStepsBounded` | `nestty-daemon/src/gui_registry.rs:125-175` | in every run an invocation takes at most four steps of its own |
| `GuiInvoke.InvokerProgresses` | `nestty-daemon/src/gui_registry.rs:125-175` | and from every state its own steps alone bring it to return |
| `GuiInvoke.ResolvedIsAnswerIff` | `nestty-daemon/src/gui_registry.rs:125-193` | over every run: a reply that the reader resolved is what its invocation returns iff that wait did not time out and its request could be sent |
| `GuiInvoke.ReplyReturned` | `nestty-daemon/src/gui_registry.rs:125-193` | wherever an invocation waits with its entry in the map, resolving, delivery and receive are possible in turn and end with that reply |
| `GuiInvoke.LostAfterTimeout` | `nestty-daemon/src/gui_registry.rs:164-193` | a failing run: the reply is resolved between the timeout and the removal of the entry |
| `GuiInvoke.LostBeforeTimeout` | `nestty-daemon/src/gui_registry.rs:164-193` | another: the reply is taken from the map before the timeout and delivered after it |
| `Bridge.OneTaker` | `nestty-linux/src/gui_client.rs:27-41` | at most one forwarder subscription of a connection takes an event |
| `Bridge.StepKeeps` | `nestty-linux/src/gui_client.rs:285-402` | each publish, forward, arrival, connect and close keeps the invariant |
| `Bridge.NothingCrossesTwice` | `nestty-daemon/src/gui_registry.rs:391-423` | no copy of an event crosses a wire more than once |
| `Bridge.AtMostOnePerConnection` | `nestty-daemon/src/socket.rs:605-669` | over one connection a native event of its GUI becomes at most one daemon event, a native daemon event at most one event of its GUI, anything else none |
| `BridgeDelivery.DeliveredDownIff` | `nestty-daemon/src/gui_registry.rs:391-423` | a daemon publication has at rest arrived over a connection exactly once and unchanged iff that was open and took it, as long as nothing is full and the connection not given up |
| `BridgeDelivery.DeliveredUpIff` | `nestty-linux/src/gui_client.rs:285-402` | likewise a GUI publication, iff the connection is open, of that GUI, hosts triggers, forwards the kind, and the daemon does not refuse it |
| `BridgeDelivery.OpenUntilClosed` | `nestty-daemon/src/gui_registry.rs:234-315` | a connection is open from its making until it is closed |
| `BridgeDelivery.StartedCanConnect` | `nestty-daemon/src/gui_registry.rs:234-270` | over every run each GUI that was started has its own bus, and exactly those can connect |
| `BridgeDelivery.CopiesAreTrue` | `nestty-daemon/src/gui_registry.rs:391-423` | every copy on any bus has the kind and source it was first published with |
| `Bridge.NoForgedCompletion` | `nestty-daemon/src/socket.rs:605-669` | what came over a wire is never on the daemon bus as an action completion |
| `Bridge.ForwardingDecreases` | `nestty-daemon/src/gui_registry.rs:391-423` | every forwarding step lowers the measure |
| `Bridge.ForwardingQuiesces` | `nestty-linux/src/gui_client.rs:285-402` | without new native publishes forwarding ends within the measure, with all queues and wires empty |
| `Framing.ReadLineCapped` | `nestty-daemon/src/socket.rs:767-819` | the buffer loop returns what the bytes and the way the stream ends determine, and leaves the reader at the next line |
| `Framing.ReadAll` | `nestty-daemon/src/socket.rs:767-819` | repeated reading gives exactly the frames and the first error of `Decode` |
| `Framing.ChunkingIrrelevant` | `nestty-daemon/src/socket.rs:767-819` | cutting a fill in two or interrupting anywhere changes neither bytes nor ending, hence no answer |
| `Framing.FramesRoundTrip` | `nestty-daemon/src/socket.rs:767-819` | frames written one per line are read back iff each is UTF-8 below the cap, without newline and not ending in a carriage return |
| `Framing.SizeFailureIff` | `nestty-daemon/src/socket.rs:767-819` | reading ends for size iff some line with its newline exceeds the cap and all before it decode |
| `SplitTree.FindParent` | `nestty-linux/src/split.rs:56-80` | finds a node with the target as a direct leaf iff there is one |
| `SplitTree.FindBranchParent` | `nestty-linux/src/split.rs:110-130` | finds the parent of a node iff it is in the tree and not its root |
| `SplitTree.CollectPanels` | `nestty-linux/src/split.rs:29-37` | appends the leaves in order |
| `SplitTree.TabContent.constructor` | `nestty-linux/src/split.rs:186-194` | a tab with a single leaf |
| `SplitTree.TabContent.Split` | `nestty-linux/src/split.rs:197-274` | in place, the focused leaf becomes a branch of it and the new panel; the tree stays proper and unshared |
| `SplitTree.TabContent.FindSiblingPanels` | `nestty-linux/src/split.rs:40-108` | the leaves beside the target, nothing when its parent is the root |
| `SplitTree.TabContent.ClosePanel` | `nestty-linux/src/split.rs:277-368` | in place, the sibling takes the place of the parent, at the root or in the grandparent; the tree stays proper and unshared |
| `SplitTree.GraftRepresents` | `nestty-linux/src/split.rs:233-262` | overwriting one field of a node on the heap is exactly the graft of a subtree |
| `SplitTree.SplitInsertsAfter` | `nestty-linux/src/split.rs:197-274` | splitting turns the leaf sequence [.. f ..] into [.. f, new ..] |
| `SplitTree.CloseDeletes` | `nestty-linux/src/split.rs:277-368` | closing deletes exactly its target from the leaf sequence |
| `SplitTree.StaysDistinct` | `nestty-linux/src/split.rs:197-368` | panels stay distinct under both |
| `SplitTree.CloseUndoesSplit` | `nestty-linux/src/split.rs:197-368` | closing the panel just added restores the original shape |
| `SplitTree.SplitThenClose` | `nestty-linux/src/split.rs:197-368` | the same on the heap, at the root and below it |
| `SplitTree.FocusTargetExact` | `nestty-linux/src/split.rs:283-364` | no focus target iff the closed leaf was a child of the root; otherwise the first of a block of leaves right beside it |

## Left out

- Texts of error messages and log lines: errors are constructors with the data that callers tell apart.
- The value of a numeral, f64 rounding and integers beyond f64: a numeral denotes what the environment says, numbers compare as reals, and JSON numbers are never NaN.
- Printing of JSON values: an unspecified function, the same one wherever the code prints.
- Condition depth: the parser and the evaluator recurse without the stack limit that a real thread has.
- ConditionLexer.Next: the character literal decoding of Rust for non-ASCII bytes in error messages is not modelled, only that the byte is refused.
- Clocks: each step names its own time; nothing assumes that two steps agree on it.
- TriggerEngine.TriggerEngine.SetTriggers: the object is modelled one call at a time; calls that overlap are the steps of `AwaitMachine`, in any order.
- TriggerEngine.TriggerEngine.Dispatch: the sink answers through a parameter and does not call back into the engine.
- AwaitTick.TickMatchedIff: nothing else happens between two dispatches of a batch; in the daemon a reload of the triggers, which takes no lock of the pump, can clear both pools there. `AwaitMachine` has that interleaving.
- EventBus.EventBus.PublishEvent: history and fan-out are one step; the code takes their locks one after the other, so that publishes which overlap may be delivered in another order than the history has.
- EventBus.EventBus.SubscribeWithBuffer: a buffer of size zero, a rendezvous channel, takes nothing here; blocking receives with a timeout are a `TryRecv` that may be made at any time.
- PumpInterleaving.DeliveredIffCaught: a drain hands its sorted batch over in one step, since handing over touches no receiver; that a drain ends is a premise, as publications without pause could keep it receiving.
- `ContextService` and the context-only drain of the pump.
- Supervisor.StepKeeps: one service among any number, as steps on a value rather than an object, since what matters is their interleaving; request ids, reader, writer and forwarder threads, restart delays and `shutdown_all` are not part of it, and a restart is a request that may come at any time.
- Supervisor.QuiescentDrained: says that an invocation left the buffer, not what the service answered to it.
- Provides.ResolveProvides: directories are compared through their rank in the order of paths, and the warning about duplicate names is left out.
- Panicking handlers and poisoned locks: handlers return, as the preamble of the action registry asks.
- ActionRegistry.Registry.TryDispatch: the detached thread used without a pool has its effects at once; its interleavings are in `DispatchPool`.
- ActionRegistry.ThreadPool.WorkerLoop: one worker; any number of them are the steps of `DispatchPool`, where joining on drop is left out.
- `invoke` and `try_invoke` of the action registry, which publish the same completion inline.
- GuiRegistry.GuiRegistry.Register: the identifier is a parameter, new by assumption as a random UUID is.
- GuiInvoke.StepKeeps: failure to serialize a request; the heartbeat is an invocation like any other.
- Bridge.StepKeeps: payloads and timestamps, which pass unchanged; the queues of one connection's upward forwarders are one collection from which any event may come next, so nothing is said about their order.
- Bridge.AtMostOnePerConnection: a GUI that reconnects gets a new connection, and the bound is for each one.
- Framing.ReadLineCapped: what is left in the stream after an error, which is fatal to the connection.
- SplitTree.TabContent.Split: widgets, orientation and the deferred pane position.
- Command line, configuration files, keybindings, themes, the terminal and web views, updates, the macOS package.
