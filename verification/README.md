# Decision core: a verified model

This project models the decision logic of a reputation and child-safety platform and proves what that logic
promises. Five groups of code are covered: the child-safety policy engine (strict validator, condition
interpreter, effect merge), the evidence gate with its customer projection and query push-down, the SDK's
offline delivery queue, three tree and text transformations (canonical signing text, redaction by wildcard
paths, CSV export), and keep-oldest reconciliation of monitoring.

Code that changes state step by step is written as methods and classes with loops and proved against
specification functions; what the source promises is then proved about those functions as lemmas.

| module | what it holds |
|---|---|
| `Optional`, `Sorting`, `Strings`, `Numbers` | absent values; stable sort and permutation facts; UTF-16 string order; finite numbers as shortest decimals, their order, and their text by section 6.1.6.1.20 of ECMA-262 with a reader that gets the number back |
| `JsonTree`, `JsonLiterals` | values as trees with ordered fields, plain and key-sorted JSON text, unique readability; the forms of those texts and a reader for string literals |
| `Signing` | canonical envelope text, sign, verify |
| `PolicySchema`, `PolicyValidator`, `PolicyEngine`, `PolicyMerge`, `PolicyMergeFacts`, `PolicyMergeOrder`, `PolicyTheorems`, `PolicyMeaning`, `PolicyAcceptance` | the policy language, its validator, its interpreter, the effect merge, the theorems, and both acceptance and results in the terms of a policy author |
| `EvidenceSpans`, `EvidenceGate`, `Pipeline`, `Reputation`, `EvidenceMeaning` | the span matcher, the gate and projection, the gated section of the hybrid classifier, the stored projection and the query predicates, and what they say written out |
| `DeliveryQueue`, `DeliveryRuns`, `SdkClient`, `DeliveryMeaning` | the queue as a state machine, its runs, the client object that refines it, and its turns by what a caller sees |
| `JsonPaths`, `Redaction`, `RedactionMeaning` | locations in a tree, wildcard targets, the redaction transformer, and what each action leaves behind |
| `Csv` | the export printer and a reader following section 2 of RFC 4180 |
| `Entitlements` | which accounts lose monitoring when caps shrink |

`dafny verify dfyconfig.toml` checks the whole project.

## Where the code departs from what is promised

Each point is kept as the code has it and proved with its exact condition.

- A policy leaf naming a member that every object inherits (`toString`, `constructor`, ...) passes the
  allow-list, because the field table is an ordinary object. Facts under such a name are outside the canonical
  input and yet can decide a match: `PolicyTheorems.InheritedNameSlipsThrough` gives the leaf, and
  `PolicyTheorems.InsensitiveIffListed` shows that these names are the only hole.
- The validator's comment says that it never throws. A leaf whose field is an object owning a key `toString`, also
  inside an array, cannot be converted to a property name, and the lookup raises an exception:
  `PolicyValidator.OwnToStringRaises` gives a definition, and `PolicyValidator.Validate` and
  `PolicyValidator.RaisedIff` say exactly when: such a leaf is among the first 20 nodes, no deeper than 5, of some
  rule's condition.
- The documentation says that duplicate identical effects de-duplicate. What is recommended and authorized is
  indeed independent of repetition and position (`PolicyMergeFacts.MergeForgetsOrder`), but the reason code of a
  proposed action and the bounds of an automatic intervention are those of the last effect that names the type.
  `PolicyMergeOrder.DuplicateShows` gives a duplicate that changes the decision, and
  `PolicyMergeOrder.ForgetsListIff` says exactly for which effects the whole decision depends on nothing but which
  effects there are.
- A default effect that says something only by its payload is accepted but does nothing, since the default never
  carries one: `PolicyTheorems.DefaultDoesNothingIff` says for which defaults, and
  `PolicyTheorems.PayloadlessDefaultAccepted` gives an accepted definition.
- A transport that rejects with null or undefined, or a receipt at a time without a date, raises an exception that
  leaves the flush: the old queue stays, although some of it may be delivered or dead-lettered already.
  `DeliveryRuns.DeliveredAndWaiting` gives the run, `DeliveryQueue.FlushConservesIff` and
  `DeliveryRuns.RunConservesIff` say exactly when every envelope is in one place, and `DeliveryQueue.FlushKeepsIff`
  and `DeliveryRuns.RunsKeepInvariantIff` exactly when the retry discipline holds as well. Bound, order and the
  absence of loss hold regardless (`DeliveryRuns.RunsKeepOrder`, `DeliveryRuns.PlacesInRun`).
- A 2xx answer without a JSON body is dead-lettered with no failure class (`DeliveryQueue.RoundFate`,
  `DeliveryRuns.EmptySuccessIsDropped`).
- The comment on the jitter says 0 to 250 ms; the code gives 0 to 249 (`DeliveryQueue.BackoffDoubles`).
- The canonical envelope text leaves out a field called `__proto__` besides the signature
  (`Signing.AddedFieldShows`), and prints what is undefined, NaN or infinite as null
  (`JsonTree.StableKernel`).
- The mask is called non-reversible. Every identifier but the empty one shares its mask with another
  (`Redaction.MaskHidesIff`), but of an identifier of one or two characters the mask shows every character, and among
  identifiers of the same length it hides exactly those of three or more (`Redaction.MaskHidesAmongLengthIff`).
- Masking a value that cannot be converted to text raises an exception (`Redaction.ApplyRedactions`), which the payload's type rules
  out (`Redaction.TypedNeverThrows`).
- A CSV row without cells prints as an empty line, which reads back as one empty field (`Csv.CsvParsesBack`); and
  the guard's apostrophe can make two different texts alike (`Csv.GuardCollisions`).
- For direct callers only, since the database admits neither: an empty risk level reads back as `none`
  (`Reputation.WriteReadRoundTrip`), and an unknown sentiment is neutral in memory but in no bucket of the query
  predicates when the bucket depends on the sentiment (`Reputation.PushDownIff`).
- Hand-made persisted columns with an unknown state, or a confirmation of nothing, read as needing review but are
  not selected by the review filter (`Reputation.ReviewFilterIff`).
- A matcher term without a space whose first character is no word character can be found with an empty span, which
  fails its own re-validation (`EvidenceSpans.EmptySpanFound`, `EvidenceSpans.SpanValidatesIff`).

## A limit of the keep-oldest rule

Nothing promises that keeping the oldest brands keeps most accounts, and it need not:
`Entitlements.YoungerBrandKeepsMore` is an example. Among the accounts of the kept brands no selection within the
account cap keeps more (`Entitlements.KeepsAsManyAsPossible`).

## Model

| member | source | states |
|---|---|---|
| JsonTree.StableKernel | packages/core/src/child-safety-signing.ts:16-22 | two values have the same key-sorted text exactly when they are equal up to key order at every depth and up to which null-like value stands in a place |
| JsonTree.StableUnique | packages/core/src/child-safety-signing.ts:16-22 | the key-sorted text is self-delimiting: with any continuation it determines the value and the rest |
| Numbers.NumTextReads | packages/core/src/child-safety-signing.ts:17 | the printed form of a finite number, in all of its fixed and exponent layouts, reads back as that number |
| Numbers.NumLeIsIntegerOrder | packages/core/src/child-safety-policy.ts:388-391 | numbers counted in any common decimal unit compare, and are equal, as the integers that count them |
| Strings.StrLeByUnits | packages/core/src/child-safety-policy.ts:419 | texts compare by the alphabetical order of their UTF-16 code units, and their length counts those units |
| JsonLiterals.LiteralReadsBack | packages/core/src/child-safety-signing.ts:17 | a string-literal reader after section 7 of RFC 8259 gets every quoted string back, whatever follows it |
| JsonLiterals.EscapeForms | packages/core/src/child-safety-signing.ts:17 | which short escape each special character has |
| JsonLiterals.StableForms | packages/core/src/child-safety-signing.ts:18-21 | arrays list the texts of their items in order, objects their entries by ascending key, each key once |
| JsonLiterals.PlainForms | packages/core/src/child-safety-policy.ts:238 | the plain text keeps the order of fields and leaves out undefined ones |
| JsonLiterals.ConvertedForms | packages/core/src/child-safety-policy.ts:279 | the text a value converts to, and that a list has one exactly if its items have, an object exactly if it owns no key toString |
| JsonLiterals.PointForms | packages/core/src/child-safety-signing.ts:17 | where the plain layouts of numbers begin and end: up to 21 digits before the point, up to six places behind it |
| JsonLiterals.ExponentForms | packages/core/src/child-safety-signing.ts:17 | from there on numbers have one digit before the point and a signed exponent |
| Signing.CanonicalizeEnvelope | packages/core/src/child-safety-signing.ts:25-29 | the copying loop yields the canonical text of the covered fields |
| Signing.CanonicalKernel | packages/core/src/child-safety-signing.ts:16-29 | the canonical text is a complete invariant: equal exactly for envelopes with the same signed content |
| Signing.AddedFieldShows | packages/core/src/child-safety-signing.ts:25-29 | adding a field changes the canonical text if and only if its key is neither the signature nor `__proto__` |
| Signing.VerifiedIffSigned | packages/core/src/child-safety-signing.ts:32-58 | verification succeeds exactly when the envelope carries the signature that signing it would produce |
| Signing.SignedVerifies | packages/core/src/child-safety-signing.ts:25-58 | a signed envelope verifies under the same secret, and so does any reordering of it |
| Signing.TamperingNeedsCollision | packages/core/src/child-safety-signing.ts:44-58 | changed content under an old signature verifies only if the keyed hash collides on two different texts |
| Signing.VerdictIs | packages/core/src/child-safety-signing.ts:44-58 | which reason each refused signature gets: two labels that are not the supported ones, 64 hex digits other than the keyed hash, and malformed for everything else |
| Csv.CsvEscapeField | packages/core/src/csv.ts:8-15 | one field is the quoted form of its guarded text |
| Csv.ToCsv | packages/core/src/csv.ts:18-22 | the document is the table's lines, each ended by CRLF |
| Csv.CsvParsesBack | packages/core/src/csv.ts:8-22 | an RFC 4180 reader recovers header and rows as the guarded texts if and only if no row is empty, for any mix of commas, quotes and line breaks |
| Csv.NoFormulaRecovered | packages/core/src/csv.ts:10-11 | every document parses, and no recovered field starts with one of = + - @, a tab or a carriage return |
| Csv.CellsRecovered | packages/core/src/csv.ts:9-11 | what is recovered of each cell: nothing of an absent one, else its text, behind an apostrophe exactly if it starts with one of the six characters |
| Csv.QuotedForms | packages/core/src/csv.ts:12-13 | a field is quoted only if it holds a quote, comma or line break, and then every quote in it is doubled |
| Csv.SampleDocument | packages/core/src/csv.ts:18-22 | a document of two rows, character by character |
| Csv.GuardCollisions | packages/core/src/csv.ts:11 | exactly which two texts the guard makes alike |
| Entitlements.SelectMonitoringToDisable | packages/core/src/entitlements.ts:272-297 | the two-stage loop computes the specified list of disabled accounts |
| Entitlements.KeptBrandsAreOldest | packages/core/src/entitlements.ts:279-282 | kept brands number at most the cap, and each was created before every brand not kept, or at the same time with the smaller id |
| Entitlements.KeptIffInFront | packages/core/src/entitlements.ts:290-296 | an account keeps monitoring exactly when it stands in front of the cut in age order among accounts of kept brands |
| Entitlements.KeepsOldestWithinCaps | packages/core/src/entitlements.ts:272-297 | as many accounts of kept brands stay as the account cap allows, and each was created before every account in the excess, or at the same time with the smaller id |
| Entitlements.DisabledByRank | packages/core/src/entitlements.ts:267-297 | an account is disabled if and only if at least as many brands as allowed are older than its own, or at least as many accounts of kept brands as allowed are older than it |
| Entitlements.DisabledListed | packages/core/src/entitlements.ts:284-296 | the list names the accounts of lost brands as listed, then the excess from the oldest on |
| Entitlements.KeepsAsManyAsPossible | packages/core/src/entitlements.ts:290-294 | among accounts of the kept, oldest brands, no selection within the account cap keeps more |
| Entitlements.YoungerBrandKeepsMore | packages/core/src/entitlements.ts:279-288 | two brands under a cap of one where keeping the younger one would keep more accounts |
| Entitlements.OrderDoesNotMatter | packages/core/src/entitlements.ts:266-297 | permuting accounts and brands leaves the disabled set the same |
| Entitlements.SecondRunDisablesNothing | packages/core/src/entitlements.ts:272-297 | a second run on the survivors disables nothing |
| PolicyValidator.Validate | packages/core/src/child-safety-policy.ts:234-295 | an exception ends it exactly if a rule holds a textless leaf among the visited nodes; otherwise the definition is valid exactly when it is acceptable, with a bounded list of errors |
| PolicyValidator.RaisedIff | packages/core/src/child-safety-policy.ts:248-295 | for every definition, validation raises if and only if some object rule has, among the first 20 nodes of its condition no deeper than 5, a leaf whose field has no text |
| PolicyValidator.WalkRaisesIff | packages/core/src/child-safety-policy.ts:267-291 | for every tree, depth and counter, the walk raises exactly at a textless leaf among the nodes depth and counter let it visit, and counts the nodes up to the limit |
| PolicyValidator.OwnToStringRaises | packages/core/src/child-safety-policy.ts:279 | a definition with a condition on an object owning toString raises, whatever else it says |
| PolicyValidator.NoErrorsIffAccepted | packages/core/src/child-safety-policy.ts:234-302 | no error is raised if and only if ids are unique, payloads valid, trees within 5 levels and 20 nodes, groups non-empty and leaves well typed |
| PolicyValidator.SilentWalk | packages/core/src/child-safety-policy.ts:267-291 | the walk with the shared counter is silent exactly on sound trees that fit depth and remaining budget, and then has counted every node once |
| PolicyValidator.Validation.Err | packages/core/src/child-safety-policy.ts:235-236 | the error list stays the bounded front of everything reported |
| PolicyValidator.Validation.Walk | packages/core/src/child-safety-policy.ts:268-291 | walking reports the faults of the tree and leaves the counter where the specification says, or ends in an exception exactly at a leaf without a field text |
| PolicyAcceptance.AcceptedIff | packages/core/src/child-safety-policy.ts:234-295 | a definition is acceptable exactly if size, version, purpose, default, rule count, rules and ids are as written out here |
| PolicyAcceptance.RuleOkIff | packages/core/src/child-safety-policy.ts:251-265 | what makes a rule sound, with its bounds: 64 code units, 20 effects, depth 5, 20 nodes |
| PolicyAcceptance.LeafFits | packages/core/src/child-safety-policy.ts:278-301 | a leaf is sound exactly if its value fits the text of its operator and the kind of its field |
| PolicyAcceptance.FieldKinds | packages/core/src/child-safety-policy.ts:127-158 | which listed fields are numbers, booleans and free text, per purpose |
| PolicyAcceptance.FieldLookup | packages/core/src/child-safety-policy.ts:279-280 | a listed name is looked up as listed, and of all others exactly the inherited names are found, as free text |
| PolicyAcceptance.FlatGroupFits | packages/core/src/child-safety-policy.ts:267-277 | a flat group of sound leaves is accepted exactly for 1 to 19 of them |
| PolicyAcceptance.NestedGroup | packages/core/src/child-safety-policy.ts:267-277 | a group around one child counts one level and one node more, so a child is accepted up to depth 4 and 19 nodes |
| PolicyAcceptance.RecommendationPayload | packages/core/src/child-safety-policy.ts:195-197 | what the payload of a severity, urgency or escalation effect must hold |
| PolicyAcceptance.ActionPayload | packages/core/src/child-safety-policy.ts:198-203 | what the payload of a proposed action must hold |
| PolicyAcceptance.InterventionPayload | packages/core/src/child-safety-policy.ts:204-210 | what the payload of an automatic intervention must hold |
| PolicyAcceptance.DefinitionErrorsAre | packages/core/src/child-safety-policy.ts:237-246 | each error about the definition as a whole is raised exactly under its own condition |
| PolicyAcceptance.RuleErrorsAre | packages/core/src/child-safety-policy.ts:250-265 | each fault of a rule is raised under the index of that rule and no other |
| PolicyAcceptance.DuplicatesAre | packages/core/src/child-safety-policy.ts:253 | an id is reported as a duplicate exactly if two rules with well-formed ids share it |
| PolicyAcceptance.RuleFaultsAre | packages/core/src/child-safety-policy.ts:254-265 | each fault of a rule beside its condition is raised exactly under its own condition |
| PolicyAcceptance.WalkReportsHere | packages/core/src/child-safety-policy.ts:268-277 | what a walk reports at one node: depth, then count, then shape, and of a group its kind and whether it is empty |
| PolicyAcceptance.ErrorsInOrder | packages/core/src/child-safety-policy.ts:234-294 | errors stand in the order of the checks: the definition, then rule after rule its fields, its effects one by one and its condition |
| PolicyAcceptance.CapIs | packages/core/src/child-safety-policy.ts:236 | the list is the front of all errors, at most a hundred |
| PolicyAcceptance.EffectFaultsAre | packages/core/src/child-safety-policy.ts:261-264 | what is reported about an effect: its type, or each foreign key and each wrong entry of its payload |
| PolicyAcceptance.LeafNameFaultsAre | packages/core/src/child-safety-policy.ts:279-281 | an unknown field and an unknown operator are reported in this order, and only one of them |
| PolicyAcceptance.LeafValueFaultsAre | packages/core/src/child-safety-policy.ts:282-289 | which fault each ill-fitting value is reported as, by class of operator |
| PolicyMerge.MergeEffects | packages/core/src/child-safety-policy.ts:452-498 | the fold over the mutable draft yields the declarative merge |
| PolicyMerge.Draft.Apply | packages/core/src/child-safety-policy.ts:459-490 | one effect changes exactly the flag, recommendation, action or bound its type is for |
| PolicyMergeFacts.HighestIsGreatest | packages/core/src/child-safety-policy.ts:462-470 | the kept recommendation is among those made and none made ranks higher |
| PolicyMergeFacts.RecommendationsAreGreatest | packages/core/src/child-safety-policy.ts:462-470 | severity, urgency and escalation level are the greatest that valid effects name, absent only if none does |
| PolicyMeaning.SeverityReads | packages/core/src/child-safety-policy.ts:462-463 | the severity is critical if some effect says so, else high, medium or low, else absent |
| PolicyMeaning.UrgencyReads | packages/core/src/child-safety-policy.ts:464-465 | the urgency is immediate if some effect says so, else elevated or routine, else absent |
| PolicyMeaning.EscalationReads | packages/core/src/child-safety-policy.ts:469-470 | the escalation level is urgent_internal if some effect says so, else internal, monitor or none, else absent |
| PolicyMergeFacts.ActionPerType | packages/core/src/child-safety-policy.ts:472-478 | per action type one entry exactly if proposed; approval is needed iff some proposal asks; the reason is that of the last proposal giving one, else empty |
| PolicyMergeFacts.ActionsListed | packages/core/src/child-safety-policy.ts:472-496 | proposed actions are sorted, distinct by type, and say what the effects say |
| PolicyMeaning.ActionReads | packages/core/src/child-safety-policy.ts:472-478 | by payload entries: each action asked for is listed, needs approval iff some effect asking for it says so, and has the reason of the last one |
| PolicyMergeFacts.BoundsListed | packages/core/src/child-safety-policy.ts:479-494 | bounds are empty when a human must decide, otherwise sorted, one per allowed intervention, from the last effect allowing it |
| PolicyMeaning.BoundReads | packages/core/src/child-safety-policy.ts:480-482 | which payload entry becomes the type, the maximal severity and the maximal urgency, low and routine if absent |
| PolicyMeaning.PrerequisitesRead | packages/core/src/child-safety-policy.ts:482 | the prerequisites are those given, in alphabetical order |
| PolicyMeaning.LooseReadings | packages/core/src/child-safety-policy.ts:474-482 | what counts as true and as text in effects that never passed validation |
| PolicyMergeFacts.MergeForgetsOrder | packages/core/src/child-safety-policy.ts:452-498 | any reordering or repetition of valid effects recommends and authorizes the same, up to reasons and bounds |
| PolicyMergeOrder.ForgetsListIff | packages/core/src/child-safety-policy.ts:452-498 | the whole decision is the same for every list with the same valid effects if and only if proposals of one action share their reason and, unless a human decides, allowances of one intervention share their bounds |
| PolicyMergeOrder.DuplicateShows | packages/core/src/child-safety-policy.ts:472-478 | two valid proposals for different reasons: repeating the first after the second changes the decision |
| PolicyMergeFacts.ValidEntriesHaveText | packages/core/src/child-safety-policy.ts:474-482 | every entry of a valid effect that the merge converts to text has one |
| PolicyEngine.RunRules | packages/core/src/child-safety-policy.ts:421-434 | the pass collects matched ids, unmatched ids, first-use codes and effects of the matching rules in order |
| PolicyEngine.Evaluate | packages/core/src/child-safety-policy.ts:412-449 | evaluation equals the specified result, failing closed on a purpose mismatch |
| PolicyMeaning.MismatchFailsClosed | packages/core/src/child-safety-policy.ts:368-377 | a wrong purpose, or rules that are no list, require review, keep everything manual, prohibit guardian contact and decide nothing else |
| PolicyMeaning.ResultIds | packages/core/src/child-safety-policy.ts:417-447 | the ids reported are those of the enabled rules that hold, and on request of those that do not, by ascending priority number and id |
| PolicyMeaning.ResultCodes | packages/core/src/child-safety-policy.ts:424-439 | the codes are those of the rules that hold, each once, or the code of the default |
| PolicyMeaning.CodesFirstUse | packages/core/src/child-safety-policy.ts:429 | codes stand in the order of their first use |
| PolicyMeaning.EffectsInOrder | packages/core/src/child-safety-policy.ts:430 | the effects of the rules reach the merge rule after rule |
| PolicyMeaning.FlagsRead | packages/core/src/child-safety-policy.ts:457-491 | each flag is up exactly if some enabled rule that holds has an effect with the text for it |
| PolicyMeaning.SafeFlagsRead | packages/core/src/child-safety-policy.ts:466-497 | review, contact and automatic interventions by effect texts, safe wishes winning across all rules |
| PolicyMeaning.CanonicalInputForm | packages/core/src/child-safety-policy.ts:307-316 | the canonical input is the text of purpose, engine, schema and the listed facts that are texts, booleans or numbers, by ascending name |
| PolicyTheorems.ListingOrderIrrelevant | packages/core/src/child-safety-policy.ts:412-449 | a validated definition evaluates the same for every permutation of its rules |
| PolicyTheorems.OrderedForgetsListing | packages/core/src/child-safety-policy.ts:417-419 | filtering and sorting by priority and id has one outcome for all listings of rules with unique ids |
| PolicyTheorems.MatchedInOrder | packages/core/src/child-safety-policy.ts:417-434 | the matched rules are exactly the enabled ones whose condition holds, in priority order |
| PolicyTheorems.InputFixesFacts | packages/core/src/child-safety-policy.ts:307-316 | equal canonical inputs fix every listed fact up to absent, null and other valueless readings |
| PolicyTheorems.NodeTakesAlike | packages/core/src/child-safety-policy.ts:379-403 | a sound condition tree over listed names cannot tell two facts maps with one canonical input apart |
| PolicyTheorems.NonInterference | packages/core/src/child-safety-policy.ts:307-316 | for definitions over listed names, equal canonical inputs give equal results |
| PolicyTheorems.InsensitiveIffListed | packages/core/src/child-safety-policy.ts:279-280 | an accepted leaf ignores everything outside the canonical input if and only if its field is listed; otherwise it names an inherited member |
| PolicyTheorems.InheritedNameSlipsThrough | packages/core/src/child-safety-policy.ts:279-280 | an accepted leaf on `toString` that two fact maps with the same canonical input answer differently |
| PolicyTheorems.OperatorLaws | packages/core/src/child-safety-policy.ts:379-394 | opposites deny each other, membership is equality with a member, comparisons are the trichotomy of a transitive order; their direction is in PolicyMeaning.ComparesNumbers |
| PolicyMeaning.ComparesNumbers | packages/core/src/child-safety-policy.ts:388-391 | on all finite numbers greater means that the fact exceeds the value, and the other three as named |
| PolicyMeaning.ComparesIntegers | packages/core/src/child-safety-policy.ts:388-391 | on integers in any common unit the operators are the integer comparisons |
| PolicyMeaning.ComparesInfinity | packages/core/src/child-safety-policy.ts:388-391 | an infinite fact lies beyond every number, and NaN compares with none |
| PolicyMeaning.LeafCompares | packages/core/src/child-safety-policy.ts:379-391 | a leaf with one of the four comparison texts asks the fact it names on the left against its value |
| PolicyMeaning.LeafAsks | packages/core/src/child-safety-policy.ts:379-393 | what a leaf with each of the other operator texts asks, and that any other text never holds |
| PolicyMeaning.LeafAsksOddly | packages/core/src/child-safety-policy.ts:381-387 | a fact that is an object or not a number equals nothing, though a list may hold not-a-number, and it exists |
| PolicyMeaning.GroupHoldsIff | packages/core/src/child-safety-policy.ts:395-402 | ALL holds iff there are members and all hold, any other group iff some member holds |
| PolicyTheorems.OppositeTreesDisagree | packages/core/src/child-safety-policy.ts:379-402 | swapping ALL with ANY and every operator with its opposite negates a condition tree of any depth |
| PolicyTheorems.AllIsStricter | packages/core/src/child-safety-policy.ts:395-402 | ALL over the same conditions is at least as strict as ANY, each condition is necessary for one and sufficient for the other, and an empty group never holds |
| PolicyTheorems.DenyAndManualWin | packages/core/src/child-safety-policy.ts:492-497 | across all matching rules deny beats allow and manual beats automatic, whatever the priorities |
| PolicyTheorems.FlagsAreCarried | packages/core/src/child-safety-policy.ts:457-491 | every other flag is up exactly when some matching rule carries its effect |
| PolicyTheorems.DefaultAuthorizesNothing | packages/core/src/child-safety-policy.ts:435-441 | without a match only the default's type speaks, and it authorizes, proposes and recommends nothing |
| PolicyTheorems.DefaultDoesNothingIff | packages/core/src/child-safety-policy.ts:435-441 | without a match the decision is empty if and only if the default is NO_ACTION or one of the five types that need a payload |
| PolicyTheorems.PayloadlessDefaultAccepted | packages/core/src/child-safety-policy.ts:234-247 | a definition with such a default is accepted, and its decision is empty for all facts |
| DeliveryQueue.RoundFate | packages/child-safety-sdk/src/client.ts:126-157 | an answer delivers, re-queues, dead-letters or escapes exactly by status, body, failure, date and attempts left |
| DeliveryQueue.BackoffDoubles | packages/child-safety-sdk/src/client.ts:153-154 | each further delay doubles the backoff up to 30 s and adds the same jitter under 250 ms |
| DeliveryMeaning.StatusDecides | packages/child-safety-sdk/src/client.ts:137-157 | by status: a 2xx with a body delivers, without one it is a dead letter, 429 and 5xx wait again while attempts are left, every other status is a dead letter |
| DeliveryMeaning.FailureDecides | packages/child-safety-sdk/src/client.ts:141-157 | by failure: a timeout or an unnamed failure waits again while attempts are left, an abort is a dead letter, a rejection with nothing escapes |
| DeliveryMeaning.OnePost | packages/child-safety-sdk/src/client.ts:129-136 | each due item is posted once per flush, with its attempt number, time and delay on record |
| DeliveryMeaning.NoPostWhileAborted | packages/child-safety-sdk/src/client.ts:127-128 | an aborted turn, or one before the item is due, posts nothing and keeps the item as it is |
| DeliveryMeaning.AbortStopsPosting | packages/child-safety-sdk/src/client.ts:127 | from the first turn on which the abort flag stays up no post is made, nothing settles, and the rest of the queue is kept |
| DeliveryMeaning.QuietFlush | packages/child-safety-sdk/src/client.ts:126-128 | a flush whose turns are all aborted or too early leaves queue, ledger and counts as they were |
| DeliveryMeaning.ReturningFlush | packages/child-safety-sdk/src/client.ts:158-160 | a flush that returns leaves the survivors, and the transport idle exactly if the last failure was cleared |
| DeliveryQueue.FlushHoldings | packages/child-safety-sdk/src/client.ts:120-161 | for any flush against any transport the places together hold what they held plus exactly what had been settled when an exception escaped |
| DeliveryQueue.FlushConservesIff | packages/child-safety-sdk/src/client.ts:120-161 | a flush keeps each envelope in one place if and only if no turn escapes or nothing had been settled by then |
| DeliveryQueue.FlushKeepsIff | packages/child-safety-sdk/src/client.ts:120-161 | a flush keeps the whole invariant if and only if none of its turns escapes |
| DeliveryQueue.FlushKeepsOrder | packages/child-safety-sdk/src/client.ts:120-161 | bound and order of the queue survive every flush |
| DeliveryQueue.EscapeMiscounts | packages/child-safety-sdk/src/client.ts:141-157 | an escape leaves an item in the queue with a post its attempts do not count |
| DeliveryQueue.EnqueueHoldings | packages/child-safety-sdk/src/client.ts:77-82 | enqueueing adds exactly the new envelope to the places, whatever it drops for room |
| DeliveryQueue.EnqueueKeeps | packages/child-safety-sdk/src/client.ts:77-82 | enqueue with overflow keeps the whole invariant |
| DeliveryMeaning.EnqueueKeepsNewest | packages/child-safety-sdk/src/client.ts:77-82 | a new envelope goes last, with no attempts and due at once; a full queue loses its oldest |
| DeliveryMeaning.EnqueuedInOrder | packages/child-safety-sdk/src/client.ts:77-111 | several envelopes are enqueued in the order given, and of everything waiting the newest stay |
| DeliveryQueue.DestroyHoldings | packages/child-safety-sdk/src/client.ts:177-183 | destroying moves exactly the waiting envelopes to the discarded ones and loses none |
| DeliveryRuns.RunsKeepOrder | packages/child-safety-sdk/src/client.ts:77-183 | every run keeps the bound, the enqueue order and oldest-first dropping, whatever the transport does |
| DeliveryRuns.PlacesInRun | packages/child-safety-sdk/src/client.ts:77-183 | in every run an envelope is in some place exactly if it was enqueued, and in more than one only as often as an escaping flush had settled it |
| DeliveryRuns.RunConservesIff | packages/child-safety-sdk/src/client.ts:77-183 | a run ends with every envelope in exactly one place if and only if no flush escaped after settling something |
| DeliveryRuns.RunsKeepInvariantIff | packages/child-safety-sdk/src/client.ts:77-183 | a run keeps conservation, attempt counts and waiting times at every step if and only if no flush escapes |
| DeliveryRuns.ExactlyOnePlace | packages/child-safety-sdk/src/client.ts:77-183 | with a transport that never rejects with nothing and representable dates, each envelope is in exactly one place and posted at most maxRetries + 1 times |
| DeliveryRuns.DeliveredAndWaiting | packages/child-safety-sdk/src/client.ts:126-159 | two envelopes, one delivered and one rejected with nothing: the first is then both delivered and waiting |
| DeliveryRuns.FlushCountsAgree | packages/child-safety-sdk/src/client.ts:120-161 | sent, failed and remaining of a flush that returns account for every envelope it started with |
| DeliveryRuns.FlushSpendsPotential | packages/child-safety-sdk/src/client.ts:145-157 | every post of a flush that returns uses up at least one of the posts still allowed |
| DeliveryRuns.RunsWait | packages/child-safety-sdk/src/client.ts:126-157 | in every run whatever waits is due at the latest 30249 ms after the latest flush |
| DeliveryRuns.QueueDrains | packages/child-safety-sdk/src/client.ts:120-161 | maxRetries + 1 flushes at least 30249 ms apart, not aborted, over a calm transport, empty the queue of any calm run |
| DeliveryRuns.EmptySuccessIsDropped | packages/child-safety-sdk/src/client.ts:135-160 | a 2xx answer without a body to the last item of a returning flush dead-letters it and leaves the transport idle |
| SdkClient.Client.constructor | packages/child-safety-sdk/src/client.ts:25-50 | a valid configuration gives an empty queue with the defaults filled in |
| DeliveryMeaning.DefaultSettings | packages/child-safety-sdk/src/client.ts:26-37 | the defaults by number, which options are refused, and under which name |
| SdkClient.Client.RegisterInstallation | packages/child-safety-sdk/src/client.ts:85-95 | credentials come from the call, then the configuration, then the state, and nothing changes on failure |
| SdkClient.Client.EnqueueOne | packages/child-safety-sdk/src/client.ts:77-82 | the object's queue moves as the machine's enqueue |
| SdkClient.Client.EvaluateContent | packages/child-safety-sdk/src/client.ts:97-113 | every signal found is enqueued in order, and every failure leaves the queue alone |
| SdkClient.Client.SubmitSafetySignal | packages/child-safety-sdk/src/client.ts:115-118 | submission enqueues exactly on a live client |
| DeliveryMeaning.LiveIff | packages/child-safety-sdk/src/client.ts:52-53 | a client may enqueue exactly while it is not destroyed and holds two credentials that are not empty |
| SdkClient.Client.CountFailure | packages/child-safety-sdk/src/client.ts:145-157 | a failed item is changed in place: counted, and re-timed or dead-lettered |
| SdkClient.Client.TakeTurn | packages/child-safety-sdk/src/client.ts:126-157 | one turn of the loop changes queue, survivors and counts as the machine's round does |
| SdkClient.Client.FlushPendingSignals | packages/child-safety-sdk/src/client.ts:120-161 | the loop over the mutable queue refines the machine's flush, escapes included, and reports its counts |
| SdkClient.Client.DestroyClient | packages/child-safety-sdk/src/client.ts:177-183 | the queue and the credentials are gone afterwards |
| JsonPaths.ResolveTargets | packages/core/src/cyberbullying-redaction.ts:130-157 | the cursors end up at exactly the reachable locations matching the path, each once, in walking order |
| JsonPaths.PutAt | packages/core/src/cyberbullying-redaction.ts:178-183 | overwriting or deleting one location changes that one, leaves all locations beside it and the shape of everything above |
| JsonPaths.DivergingApart | packages/core/src/cyberbullying-redaction.ts:75-87 | locations of two diverging wildcard paths never contain one another |
| Redaction.MaskHidesIff | packages/core/src/cyberbullying-redaction.ts:112-116 | another identifier has the same mask if and only if the identifier is not empty |
| Redaction.MaskHidesAmongLengthIff | packages/core/src/cyberbullying-redaction.ts:112-116 | among identifiers of the same length the mask hides exactly those of three characters or more |
| RedactionMeaning.MaskShows | packages/core/src/cyberbullying-redaction.ts:112-116 | a mask shows the first and last character of up to eight, the first and last four of more, and bullets between |
| Redaction.CloneIsIdentity | packages/core/src/cyberbullying-redaction.ts:166 | the deep clone of a JSON value is that value |
| Redaction.CloneAt | packages/core/src/cyberbullying-redaction.ts:166 | location by location the clone holds what JSON text can carry of the source |
| RedactionMeaning.CloneForms | packages/core/src/cyberbullying-redaction.ts:166 | the clone keeps scalars, the keys that are present in their order, and null for what JSON cannot hold |
| Redaction.ApplyRule | packages/core/src/cyberbullying-redaction.ts:175-184 | one rule treats all of its targets and nothing else, or raises exactly when it masks a value without text |
| Redaction.ApplyRedactions | packages/core/src/cyberbullying-redaction.ts:165-197 | the transformer produces the redaction of the clone with its summary, a payload fixed to its last key by the source and the ordered rules, or raises exactly when some rule in order comes to a value it cannot mask |
| Redaction.TypedNeverThrows | packages/core/src/cyberbullying-redaction.ts:165-190 | a payload with convertible values at its registered places is always redacted |
| Redaction.PayloadLocations | packages/core/src/cyberbullying-redaction.ts:165-197 | every location is the treated original, the untouched original, or has the original's shape |
| RedactionMeaning.OneRuleDecides | packages/core/src/cyberbullying-redaction.ts:175-184 | with one rule per path: a replacement leaves its marker or else the default of the field, a removal nothing, a mask the mask, keeping the original, and absent stays absent |
| RedactionMeaning.LastActionDecides | packages/core/src/cyberbullying-redaction.ts:173-184 | with several rules on a path the last one that acts decides, as far as none before it removed the value |
| RedactionMeaning.RemovalWins | packages/core/src/cyberbullying-redaction.ts:178-179 | a value that some rule removes is gone whatever the other rules on its path say |
| RedactionMeaning.MatchForms | packages/core/src/cyberbullying-redaction.ts:130-157 | the places a path stands for: a field per key, every item of the list per wildcard |
| RedactionMeaning.WritesInPlace | packages/core/src/cyberbullying-redaction.ts:179-181 | an overwritten field keeps its place among the keys, and a deleted one leaves the others in theirs |
| RedactionMeaning.SummaryReads | packages/core/src/cyberbullying-redaction.ts:185-190 | the summary lists per action the registered paths of its rules and counts all rules |
| RedactionMeaning.ClassesAre | packages/core/src/cyberbullying-redaction.ts:174-190 | the classes affected are those of the registered fields that rules name, each once |
| RedactionMeaning.SummaryInOrder | packages/core/src/cyberbullying-redaction.ts:169-190 | the lists of the summary stand in the order of the rules |
| Redaction.OmissionsRecorded | packages/core/src/cyberbullying-redaction.ts:192-195 | the removals, and only they, are appended to the source's omissions |
| RedactionMeaning.OmissionReads | packages/core/src/cyberbullying-redaction.ts:194 | an omission names the path by its text and gives one reason |
| Redaction.ListOrderIrrelevant | packages/core/src/cyberbullying-redaction.ts:169 | with distinct order values any permutation of the list gives the same ordered rules, and so the same payload, omissions and summary, also with several rules on one path |
| RedactionMeaning.RulesInOrder | packages/core/src/cyberbullying-redaction.ts:169 | rules apply by ascending order number, and with the same number as listed |
| Redaction.RuleOrderIrrelevant | packages/core/src/cyberbullying-redaction.ts:169-190 | with one rule per path, listing or numbering the rules differently gives the same value at every place beside the omissions |
| Redaction.RemovalOrderIrrelevant | packages/core/src/cyberbullying-redaction.ts:192-195 | and then the same removals are recorded among the omissions |
| Redaction.RegistryDiverges | packages/core/src/cyberbullying-redaction.ts:75-87 | any two registry paths diverge, so their targets are independent |
| RedactionMeaning.RegistryReads | packages/core/src/cyberbullying-redaction.ts:75-87 | how many fields there are, their classes and default markers |
| RedactionMeaning.RegistryTexts | packages/core/src/cyberbullying-redaction.ts:75-87 | the texts of the registered paths |
| Redaction.ComputeUnresolved | packages/core/src/cyberbullying-redaction.ts:200-212 | the lists are exactly the sensitive registry paths present in the source and covered by no rule |
| RedactionMeaning.UnresolvedReads | packages/core/src/cyberbullying-redaction.ts:200-212 | the label of the protected subject and the labels of participants are listed, each exactly if present and uncovered, and nothing else ever is |
| Redaction.NothingSensitiveSurvives | packages/core/src/cyberbullying-redaction.ts:165-212 | with nothing unresolved and some rule not keeping each covered field, every sensitive location is absent, null, a marker or a mask, also with several rules on one path |
| Redaction.KeptSurvives | packages/core/src/cyberbullying-redaction.ts:177-183 | if every rule on a path keeps it, the value stays as it was |
| Redaction.OneRuleMasksOriginal | packages/core/src/cyberbullying-redaction.ts:177-181 | with one rule per path, a masked place holds the mask of the original |
| EvidenceSpans.TokenMatchesAt | packages/ai/src/evidence.ts:102-108 | true exactly when every character matches or is masked in the text |
| EvidenceSpans.FindTermSpans | packages/ai/src/evidence.ts:125-158 | returns exactly the occurrences of the term, in increasing order, each once |
| EvidenceMeaning.OccursIff | packages/ai/src/evidence.ts:67-158 | where a term occurs, over the written-out alphabet of words: at the start of a word, masked or not, up to the end of a phrase or with an allowed rest of a word that is not safe |
| EvidenceMeaning.SpanShows | packages/ai/src/evidence.ts:133-156 | a span names category and term and shows the whole phrase or the whole word |
| EvidenceSpans.SpanValidatesIff | packages/ai/src/evidence.ts:148-173 | a found span passes its own re-validation exactly if it has a category and the term holds a space, starts with a word character or is masked there |
| EvidenceSpans.EmptySpanFound | packages/ai/src/evidence.ts:148-173 | a term that is found with an empty span, which re-validation refuses |
| EvidenceSpans.LexiconSpansValidate | packages/ai/src/evidence.ts:125-173 | for lexicon terms every span validates and a word's span is the whole word |
| EvidenceSpans.WordSpansDisjoint | packages/ai/src/evidence.ts:148-156 | spans of one single-word term never overlap |
| EvidenceSpans.ValidForAre | packages/ai/src/evidence.ts:176-182 | the evidence of a category is exactly the validating spans of that category |
| EvidenceGate.ReadEvidenceGateDecisions | packages/ai/src/evidence.ts:513-528 | the reading loop skips malformed diagnostics and entries as specified |
| EvidenceGate.ReadGateIff | packages/ai/src/evidence.ts:513-528 | from any stored value the reader yields exactly the non-empty categories and verdicts that object items of evidenceGate.decisions carry |
| EvidenceGate.ProjectionState | packages/ai/src/evidence.ts:412-440 | a row needs review exactly when a decision awaits it or an accusation lacks its confirmation |
| EvidenceGate.ShownOnlyIfConfirmed | packages/ai/src/evidence.ts:533-589 | an accusation is shown only if the gate confirmed it, a high level only on a confirmed row, and no stale decision is exposed |
| EvidenceMeaning.ProjectionReads | packages/ai/src/evidence.ts:412-440 | state and shown categories of a row, by its stored categories and gate entries alone |
| EvidenceMeaning.ProjectionFlags | packages/ai/src/evidence.ts:533-589 | a confirmed row counts in the category totals, in the severity totals if stored at high or critical, and an accusation without any gate entry counts as legacy |
| EvidenceMeaning.BadgeNames | packages/ai/src/evidence.ts:412-440 | a badge names the first accusation, all being confirmed, or without any the first describing category |
| EvidenceMeaning.ProtectionReads | packages/ai/src/evidence.ts:557-580 | a protection decision is shown on a confirmed row, or on a clean one if it is about ordinary criticism and does not act, and on no other |
| EvidenceMeaning.AccusationTable | packages/ai/src/evidence.ts:46-63 | the accusing categories and the confidence each needs |
| EvidenceMeaning.DecideReads | packages/ai/src/evidence.ts:354-377 | what any single claim is worth, and the reason given |
| Reputation.WriteReadRoundTrip | packages/ai/src/evidence.ts:610-700 | persisted columns are never stale and read back as the projection, the level exactly when it is not empty |
| EvidenceMeaning.ColumnsWritten | packages/ai/src/evidence.ts:610-645 | the columns by their texts, with version 1 |
| EvidenceMeaning.ColumnsRead | packages/ai/src/evidence.ts:668-700 | how columns read whoever wrote them, and exactly which are stale |
| Reputation.PushDownIff | packages/ai/src/reputation.ts:28-103 | the four query predicates select exactly their buckets if and only if the sentiment is known or not consulted |
| EvidenceMeaning.BucketTables | packages/ai/src/reputation.ts:10-21 | the categories that count as risky and those that are legitimate complaints |
| Reputation.ReviewFilterIff | packages/ai/src/reputation.ts:135-144 | over any stored columns the review filter agrees with the reader except exactly on malformed ones |
| Reputation.FiltersMatchProjection | packages/ai/src/reputation.ts:117-144 | on written rows the review and risky filters select exactly what the projection says |
| Reputation.TallyProjected | packages/ai/src/evidence.ts:715-726 | every counter equals the number of rows, or of shown categories, it stands for |
| EvidenceMeaning.CountsRows | packages/ai/src/evidence.ts:715-726 | counting rows one by one gives the number of rows kept |
| EvidenceMeaning.CountsShown | packages/ai/src/evidence.ts:715-726 | a category counts as often as the rows show it |
| Reputation.RowsPartition | packages/ai/src/evidence.ts:715-726 | confirmed, needing review and clean rows add up to all rows |
| Reputation.CountedAccusationsConfirmed | packages/ai/src/evidence.ts:715-726 | an accusation reaches the totals only through a row whose gate confirmed it |
| Pipeline.ClassifyGate | packages/ai/src/pipeline.ts:247-347 | the stepwise merge and gate compute the specified outcome |
| Pipeline.ShownIff | packages/ai/src/pipeline.ts:316-338 | an accusation is shown exactly when the rules or the provider claim it, a validating span supports it, and the confidence of the rules or of the provider reaches its threshold |
| Pipeline.ReviewIffHeld | packages/ai/src/pipeline.ts:321-342 | review is required exactly when some claimed accusation has evidence while neither confidence reaches its threshold, or neither evidence nor the rules behind it |
| Pipeline.ConfidenceIsGreatest | packages/ai/src/pipeline.ts:304 | the confidence is the greater of the two, so a doubtful provider never lowers the rules |
| Pipeline.ClaimVerdict | packages/ai/src/pipeline.ts:321-338 | verdict and reason on each claim, by evidence, claimants and confidence |
| Pipeline.HeldAndRejected | packages/ai/src/pipeline.ts:334-338 | the held list is what awaits review, the rejected list what the rules claimed without evidence |
| Pipeline.OutcomeFields | packages/ai/src/pipeline.ts:300-347 | the proposed level, who has to approve, what is recommended and what is shown when nothing is confirmed |
| Pipeline.ClaimOrder | packages/ai/src/pipeline.ts:305-329 | claims are decided in the order made, those of the rules first, none twice once the provider adds some |
| Pipeline.SeverityNeedsEvidence | packages/ai/src/evidence.ts:735-752 | the rules level is the floor and the provider's level applies only with a confirmed accusation |
| EvidenceMeaning.SeverityReads | packages/ai/src/evidence.ts:735-752 | the level, whether it was capped, and the reason given |
| Pipeline.DiagnosticsRoundTrip | packages/ai/src/pipeline.ts:384-396 | the stored diagnostics read back as the gate's decisions in order, save those on the empty category |
| Pipeline.DecisionFields | packages/ai/src/pipeline.ts:392-395 | what the diagnostics hold of a decision |
| Pipeline.SeverityFields | packages/ai/src/pipeline.ts:392-395 | what the diagnostics hold of the severity |
| Pipeline.ReviewSurvivesStorage | packages/ai/src/pipeline.ts:321-345 | the stored gate awaits review exactly when the classifier required it |
| Pipeline.ShownIsBacked | packages/ai/src/pipeline.ts:331-338 | every shown accusation is confirmed in the stored gate |
| Pipeline.GateAndProjectionAgree | packages/ai/src/pipeline.ts:321-345 | classifier, projection and review filter agree; without diagnostics any shown accusation needs review |

## Left out

- PolicyEngine.Evaluate: expects an accepted definition or a purpose mismatch. The code's comment adds that a shape problem still fails closed, which the code keeps only for a rule list that is no list: a rule that is null or undefined raises an exception when its enabled flag is read, and what other misshapen rules do is not modelled.
- PolicyMergeFacts.MergeForgetsOrder: leaves reason codes and the contents of bounds to PolicyMergeOrder.ForgetsListIff, which says when they too are independent of the list.
- PolicyMerge.MergeEffects: an effect that never passed validation may hold an entry that cannot be converted to text, which raises an exception there; valid effects hold none.
- PolicyTheorems.NonInterference: covers definitions whose leaves name listed fields; the other accepted leaves are settled by InsensitiveIffListed.
- PolicyValidator.Validate: cyclic values and big integers, which make the size check raise an error, are not values of the model; error texts are codes with their parameters.
- Signing.VerifiedIffSigned: the keyed hash is an arbitrary function to 64 hex digits; the constant-time comparison is plain equality.
- Numbers.NumTextReads: numbers are finite decimals in shortest form; negative zero and the rounding of binary floating point are not modelled.
- SdkClient.Client.FlushPendingSignals: one flush is one step; enqueueing or a second flush while a post is awaited is not modelled, and neither is a failure callback that keeps or changes the item it is given.
- SdkClient.Client.constructor: states the fields of the client; the class takes its configuration already checked, and the order of configuration faults is a function of the options.
- DeliveryQueue.BackoffDoubles: supposes a base delay that is not negative; the code does not check it, and not-a-number settings are not values of the model.
- JsonPaths.ResolveTargets: paths come already split into segments; an element that happens to own a key `__parent` under a path ending in a wildcard, which the registry does not have, is not modelled.
- Redaction.ApplyRedactions: the payload is an object whose omissions, if present, are a list, as its type says; masking counts code points, not UTF-16 units.
- EvidenceSpans.FindTermSpans: text arrives normalized; suffix lists and safe words are parameters, and span offsets are integers.
- Pipeline.ClassifyGate: rounding of the reported confidence to two digits, language, translation, sentiment, usage and the decision whether to consult the provider are left out; the provider's answer is arbitrary.
- Csv.CsvEscapeField: a value comes with its text; one that cannot be converted, such as an object owning a key toString, raises an exception there.
- Redaction.RuleOrderIrrelevant: the order in which removals are listed among the omissions does follow the order of the rules, and the order of the keys inside objects is compared only by ListOrderIrrelevant.
- Reputation.PushDownIff: columns that cannot be null hold values, so three-valued logic beyond comparisons with null customer columns does not arise.
- Database access, HTTP, clocks, identifiers, logging and metrics.
- Locale-aware collation, which is any total preorder (or order) given to the merge.
- Scam context assessment, lexicon contents, rule validation for redaction drafts, freshness of timestamps and the read-only diagnostics getter: each would add only easy members.
