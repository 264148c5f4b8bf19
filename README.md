# Stencil `@Listen()` normalisation and output-target dispatch, in Dafny

This project models two compile-time normalisation steps of the Stencil
compiler and proves what they promise.

**The `@Listen()` decorator pass** is `listen-decorator.ts`. Its model is in
`listen_decorator.dfy`, module `ListenDecorator`.

- For every decorated class member, the pass takes the first `@Listen(text, opts)` decorator and removes `@Listen` from the member.
- It splits `text` on commas, warning once when there are several names.
- It reduces each trimmed name to one canonical listener record (`validateListener`). Two legacy spellings are rewritten:
  - `TARGET:event` gives a warning;
  - `event.KEY` gives an error.
- It fills in `capture`, `passive` and `disabled`.
- When any record was produced, the class gets one static `listeners` getter.

The source mutates objects, so the model does too:

- The diagnostics array, the `listeners` array and the class's `newMembers` are `Sink` objects (`common.dfy`) that are only pushed to.
- A class member is a `Member` object whose `decorators` field the pass reassigns.
- Each method (`ValidateListener`, `ListenDecoratorToStatic`, `ListenDecoratorsToStatic`) is proved equal to a specification function: `Normalize`, `MemberOutcome` or `ScanMembers`. The properties are lemmas about those functions.

**The output-target check** is `validateOutputTargets` in `compiler_next/config/outputs/index.ts`. Its model is in `output_targets.dfy`, module `OutputTargets`.

- It reports one error for each user output target whose `type` is not a valid type.
- It hands each of four per-kind validators the records its predicate accepts.
- It replaces `config.outputTargets` with the four results concatenated, in the order collection, custom element, lazy, www.
- The valid-type list, the four predicates and the four validators live in other files. They are parameters (`Kinds`), and nothing is assumed about them.

`text.dfy` (module `Text`) gives the JavaScript string operations used:

- `split` on one character;
- `join`;
- `trim`, with the ECMAScript white-space set;
- `toLowerCase`, ASCII letters only.

It also proves the facts about them that the proofs need.

**How the member-level proofs are stated.** The methods that handle a member's
names take the `forEach` callback as a ghost parameter. Its precondition
`IsListenCallback` fixes it to the source's callback: `validateListener` on the
trimmed name, that is `Normalize(Trim(name), opts, memberName)`. The functions
and lemmas about members and classes hold for any callback. Read with this
callback, they speak about the source's callback. `ListenCallbackExists` shows
that the source's callback satisfies the predicate.

Behaviour of the code worth knowing:

- The passive-default table has 32 entries, all made of the letters a-z only.
- The `TARGET:event` step splits on every `:` and keeps only the second piece. It applies when no truthy `target` is given, there are at least two pieces, and the lower-cased, trimmed first piece is a target name (listen-decorator.ts:50-53).
- After normalisation a name can still contain `.`: splitting on `.` gives three or more pieces, or the second piece is not a key name. It can also still contain `:`: an explicit `target` was given, or the prefix is not a target name. `KeycodeSuffix` and `ExplicitTargetKept` state these cases.
- The key suffix is compared case-sensitively, while the passive lookup ignores case. `KeySuffixCaseSensitive` shows the visible effect on `mousedown.Enter` and `mousedown.enter`.

## Model

| member | source | states |
|---|---|---|
| ListenDecorator.ValidateListener | src/compiler/transformers/decorators-to-static/listen-decorator.ts:45-81 | the record returned and the diagnostics pushed are those of `Normalize` (the target step, then the key step, then the option defaults); nothing else is pushed |
| ListenDecorator.IsValidTargetValue | src/compiler/transformers/decorators-to-static/listen-decorator.ts:83-85 | exact, case-sensitive membership in the four target names `parent`, `body`, `document`, `window` (the table at lines 101-103); a name found is made of the letters a-z only |
| ListenDecorator.IsValidKeycodeSuffix | src/compiler/transformers/decorators-to-static/listen-decorator.ts:87-89 | exact, case-sensitive membership in the eight key names `enter`, `escape`, `space`, `tab`, `up`, `right`, `down`, `left` (the table at lines 105-107); a key found is made of the letters a-z only |
| ListenDecorator.IsPassiveDefault | src/compiler/transformers/decorators-to-static/listen-decorator.ts:76 | exact membership in the 32 passive names of lines 91-99; a name found is made of the letters a-z only, so one holding an upper-case letter, a `.` or a `:` is never passive by default |
| ListenDecorator.PassiveTableLowerCase | src/compiler/transformers/decorators-to-static/listen-decorator.ts:91-99 | the passive table has 32 entries, each made of the letters a-z only |
| ListenDecorator.ExplicitTargetKept | src/compiler/transformers/decorators-to-static/listen-decorator.ts:47-50 | a truthy `target` option (present, not empty) is the record's target, the colon step is skipped (the name only goes through the key step), and no warning is reported |
| ListenDecorator.TargetStepOnPrefix | src/compiler/transformers/decorators-to-static/listen-decorator.ts:50-58 | on the legacy prefix spelling, the target step yields the trimmed second piece, the lower-cased trimmed prefix as target, and exactly the one warning naming both; the new name has no `:` |
| ListenDecorator.LegacyTargetPrefix | src/compiler/transformers/decorators-to-static/listen-decorator.ts:50-67 | with no target, several `:` pieces and a valid prefix: the target is the prefix, the name comes from the second piece only, the warning is first and at most the key error follows, and the name has no `:` |
| ListenDecorator.NoTargetPrefix | src/compiler/transformers/decorators-to-static/listen-decorator.ts:47-59 | when the prefix spelling does not apply, the target is the option's and no warning is reported |
| ListenDecorator.KeycodeSuffix | src/compiler/transformers/decorators-to-static/listen-decorator.ts:61-67 | when the `TARGET:event` spelling does not apply (a truthy `target`, or fewer than two `:` pieces, or an invalid prefix): exactly two `.` pieces with a known (case-sensitive) key give the first piece as name (the input was name, `.`, key) and one error; one piece, three or more, or an unknown key leave the name unchanged with no diagnostic |
| ListenDecorator.KeycodeStepKeeps | src/compiler/transformers/decorators-to-static/listen-decorator.ts:61-67 | the key step keeps the target, appends at most the one error, and puts no new character into the name |
| ListenDecorator.PlainName | src/compiler/transformers/decorators-to-static/listen-decorator.ts:45-78 | a name with neither `:` nor `.` is kept, with the option's target, the member's name, and no diagnostics |
| ListenDecorator.OptionDefaults | src/compiler/transformers/decorators-to-static/listen-decorator.ts:73-77 | `capture` is the boolean option or false; `passive` is the boolean option, else whether the lower-cased final name is in the passive table; `disabled` iff `enabled === false` |
| ListenDecorator.PassiveIgnoresCase | src/compiler/transformers/decorators-to-static/listen-decorator.ts:74-76 | for two plain names (no `:`, no `.`) equal up to case and no options, the passive default is the same |
| ListenDecorator.KeySuffixOnPlainName | src/compiler/transformers/decorators-to-static/listen-decorator.ts:61-76 | for `base.key` with no `:` or `.` in either part and no options: a known key is dropped with one error and the passive default is looked up on `base`; any other key is kept, nothing is reported, and the passive default is looked up on the whole text |
| ListenDecorator.KeySuffixCaseSensitive | src/compiler/transformers/decorators-to-static/listen-decorator.ts:61-76 | the key compare is case-sensitive but the passive lookup is not: `mousedown.Enter` keeps its name, no diagnostic, not passive; `mousedown.enter` becomes `mousedown` with the key error, passive |
| ListenDecorator.FirstListen | src/compiler/transformers/decorators-to-static/listen-decorator.ts:21 | `find`: the position of the first `@Listen`, with none before it, or the length when there is none |
| ListenDecorator.RemoveListen | src/compiler/transformers/decorators-to-static/listen-decorator.ts:27 | no `@Listen` remains among the member's decorators |
| ListenDecorator.ListenCallbackExists | src/compiler/transformers/decorators-to-static/listen-decorator.ts:37-41 | the source's callback (`validateListener` on the trimmed name) meets `IsListenCallback` |
| ListenDecorator.ListenDecoratorToStatic | src/compiler/transformers/decorators-to-static/listen-decorator.ts:20-42 | the member's new decorators, the records pushed and the diagnostics pushed are those of `MemberOutcome` on its old decorators; pushes only append |
| ListenDecorator.ListenText | src/compiler/transformers/decorators-to-static/listen-decorator.ts:29-41 | the comma warning (when there are several names) and then each name's records and diagnostics are appended, as `ListenTextOutcome` states |
| ListenDecorator.ForEachName | src/compiler/transformers/decorators-to-static/listen-decorator.ts:37-41 | the loop appends each name's record and diagnostics in name order |
| ListenDecorator.ListenCallback | src/compiler/transformers/decorators-to-static/listen-decorator.ts:38-40 | one name: its record is pushed and its diagnostics appended |
| ListenDecorator.PiecesListenersAt | src/compiler/transformers/decorators-to-static/listen-decorator.ts:37-41 | k names give exactly k records, the k-th from the k-th name |
| ListenDecorator.MemberWithoutListen | src/compiler/transformers/decorators-to-static/listen-decorator.ts:21-25 | a member without `@Listen` keeps its decorators and contributes no record and no diagnostic |
| ListenDecorator.MemberWithListen | src/compiler/transformers/decorators-to-static/listen-decorator.ts:21-41 | with `@Listen(text, opts)`: every `@Listen` is removed and the rest kept in order; one record per comma piece of the first `@Listen`, in order; the comma warning comes first exactly when `text` has a comma |
| ListenDecorator.MemberOutcomeSettles | src/compiler/transformers/decorators-to-static/listen-decorator.ts:21-27 | after the pass the member has no `@Listen`, so handling it again changes nothing |
| ListenDecorator.MemberYieldsRecords | src/compiler/transformers/decorators-to-static/listen-decorator.ts:21-41 | a member yields a record exactly when it carries `@Listen` |
| ListenDecorator.ListenersGetter | src/compiler/transformers/decorators-to-static/listen-decorator.ts:14-16 | at most one getter, named `listeners` and holding all the records, present exactly when there is a record |
| ListenDecorator.ListenDecoratorsToStatic | src/compiler/transformers/decorators-to-static/listen-decorator.ts:7-17 | the members' decorators and the diagnostics are those of `ScanMembers` over the members in order from an empty record list, and `newMembers` gains exactly `ListenersGetter` of the records |
| ListenDecorator.VisitMembers | src/compiler/transformers/decorators-to-static/listen-decorator.ts:10-12 | the `forEach` leaves the state `ScanMembers` computes |
| ListenDecorator.VisitMember | src/compiler/transformers/decorators-to-static/listen-decorator.ts:10-12 | one turn of the `forEach` moves the pass past one member |
| ListenDecorator.ScanAppends | src/compiler/transformers/decorators-to-static/listen-decorator.ts:10-12 | the pass only appends to the records and to the diagnostics |
| ListenDecorator.ScanKeepsOthers | src/compiler/transformers/decorators-to-static/listen-decorator.ts:10-12 | members not visited keep their decorators |
| ListenDecorator.ScanStripsListen | src/compiler/transformers/decorators-to-static/listen-decorator.ts:10-12 | after the pass no visited member carries `@Listen` |
| ListenDecorator.ScanNoListen | src/compiler/transformers/decorators-to-static/listen-decorator.ts:10-16 | when no member carries `@Listen`, the pass changes nothing (and so adds no getter) |
| ListenDecorator.ScanSettles | src/compiler/transformers/decorators-to-static/listen-decorator.ts:7-17 | running the pass a second time adds no record and no diagnostic |
| ListenDecorator.ScanInOrder | src/compiler/transformers/decorators-to-static/listen-decorator.ts:8-12 | for distinct members, the records are the members' records member after member, each member's in name order |
| ListenDecorator.ScanYieldsRecords | src/compiler/transformers/decorators-to-static/listen-decorator.ts:14-16 | the record list is non-empty, and so the getter is added, exactly when some member carries `@Listen` |
| Text.SplitMany | src/compiler/transformers/decorators-to-static/listen-decorator.ts:31-32 | `split` gives more than one piece exactly when the separator occurs |
| Text.JoinSplit | src/compiler/transformers/decorators-to-static/listen-decorator.ts:31 | joining the pieces of `split` with the separator gives the text back |
| Text.SplitJoin | src/compiler/transformers/decorators-to-static/listen-decorator.ts:31 | splitting a join of separator-free pieces gives the pieces back |
| Text.TrimSpec | src/compiler/transformers/decorators-to-static/listen-decorator.ts:39 | `trim` drops only white space, and neither end of its result is white space |
| Text.TrimIdempotent | src/compiler/transformers/decorators-to-static/listen-decorator.ts:52-54 | trimming twice is trimming once |
| Text.TrimKeeps | src/compiler/transformers/decorators-to-static/listen-decorator.ts:54 | trimming keeps every character that is not white space, and adds none |
| Text.ToLower | src/compiler/transformers/decorators-to-static/listen-decorator.ts:52 | lower-casing keeps the length, turns each letter A-Z into the matching a-z, and changes nothing else |
| Text.ToLowerIdempotent | src/compiler/transformers/decorators-to-static/listen-decorator.ts:76 | lower-casing twice is lower-casing once |
| OutputTargets.UserOutputs | src/compiler_next/config/outputs/index.ts:11 | a missing output list is the empty list; a present one is used as given |
| OutputTargets.ValidateOutputTargets | src/compiler_next/config/outputs/index.ts:10-26 | the new `outputTargets` is the four validators' results concatenated in the order collection, custom element, lazy, www; the diagnostics gain the type errors, then each validator's diagnostics in that order |
| OutputTargets.CheckTypes | src/compiler_next/config/outputs/index.ts:13-18 | the loop appends exactly `TypeErrors` of the list to the diagnostics |
| OutputTargets.TypeErrorsAppend | src/compiler_next/config/outputs/index.ts:13-18 | the type check of a concatenation reports the errors for the first part, then those for the second |
| OutputTargets.TypeErrorsAreInvalidRecords | src/compiler_next/config/outputs/index.ts:13-18 | the type errors are one per record of unknown type, in input order, each naming that record's type; valid records add nothing |
| OutputTargets.AllValidNoErrors | src/compiler_next/config/outputs/index.ts:13-18 | a list of valid types draws no error |
| OutputTargets.TypeErrorsCount | src/compiler_next/config/outputs/index.ts:13-18 | the number of errors is the number of records of unknown type |
| OutputTargets.InvalidTypeMessageNames | src/compiler_next/config/outputs/index.ts:16 | the message has the offending type, quoted, right after its opening words, and each valid type, quoted, after that |
| OutputTargets.ShareIsOrdered | src/compiler_next/config/outputs/index.ts:21-24 | a validator's share holds exactly the records its predicate accepts, and the share of a concatenation is the parts' shares in order |
| OutputTargets.UnknownTypeStillDispatched | src/compiler_next/config/outputs/index.ts:13-24 | a record of unknown type still reaches every validator whose predicate accepts it |
| OutputTargets.UnclaimedRecordDropped | src/compiler_next/config/outputs/index.ts:20-25 | a record no predicate accepts reaches no validator |
| OutputTargets.SwapKeepsShare | src/compiler_next/config/outputs/index.ts:21-24 | swapping two neighbours that a predicate does not both accept leaves that share unchanged |
| OutputTargets.DispatchIgnoresOrderAcrossKinds | src/compiler_next/config/outputs/index.ts:20-25 | swapping two neighbouring records of different kinds changes neither the new list nor the validators' diagnostics |
| OutputTargets.CollectionBeforeLazy | src/compiler_next/config/outputs/index.ts:20-25 | with pass-through validators, input `[lazy, collection]` gives `[collection, lazy]` and no diagnostic |

## Left out

- `removeDecorator` is not part of this model. `RemoveListen` assumes that it drops every decorator named `Listen` from the member and keeps the others in order.
- `getDeclarationParameters` is not part of this model. A decorator's arguments are the `text` and `options` fields of `Decorator`. A `@Listen()` without a text argument, which makes `split` fail at run time, cannot be expressed.
- `isDecoratorNamed`, `prop.name.getText()`, `convertValueToLiteral`, `createStaticGetter` and `ts.createArrayLiteral` are not part of this model. A decorator is matched on its name, a member's name is a string field, and records and the getter are values, not syntax nodes.
- The unused `_sourceFile` and `typeChecker` parameters are omitted.
- `buildWarn` and `buildError` also fill in other diagnostic fields. Only the level and the message text are modelled.
- ListenDecorator.ListenOptions: an option value that is present but not a boolean is `None`, just like an absent one, since `typeof … === 'boolean'` treats them alike. A `target` option that is not a string is not modelled.
- ListenDecorator.ValidateListener: an explicit `null` options argument bypasses the `= {}` default and would make the source fail; this is not modelled, because a missing argument is `None`, which gets the default.
- Text.ToLower: only the ASCII letters A-Z are lower-cased; JavaScript's `toLowerCase` also folds other letters.
- The valid-type list, the four kind predicates and the four validators are not part of this model; they are the parameters in `Kinds`.
- OutputTargets.Validator: a validator is a function of its share only. The source also passes it `config`. A validator's diagnostics are modelled as a list it appends, so one that removes or reorders earlier diagnostics cannot be expressed.
- OutputTargets.ValidateOutputTargets: that every record in the new list has a valid type depends on the validators, so it is not stated.
- OutputTargets.UserOutputs: `.slice()` copies the array. Lists are values in the model, so the copy is implicit.
- ListenDecorator.ScanInOrder: this lemma asks for distinct members. If the same member node appears twice, its second visit finds no `@Listen`, as `ScanMembers` computes and `ScanStripsListen` states. The flat member-after-member formula does not cover that case.
