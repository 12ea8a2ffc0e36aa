# khanerr errors core in Dafny

This project models the `errors` package of khanerr in Dafny: the error kinds
(`errors/kinds.go`) and the error-building engine (`errors/khan.go`). Call sites
build errors tagged with one of a closed set of kinds. They attach key/value
fields, wrap earlier errors, and later read the kind and the fields back.

The model has these modules:

- `Kinds`: the twelve `errorKind` constants, `IsValidKind`, `Error` and `String`.
- `Chain`: error values as a closed datatype, with nil as `None`.
  - `KindError` is a bare kind and `Foreign` is an error of another type.
  - `Node` is a `*khanError`.
  - `WithFields` and `Tagged` are the two wrappers of the chain library (simplerr) that the package uses.
  - The module also holds what the package relies on from that library: one unwrap step, the first-match `As`, the nearest field payload, and `Is`. These definitions are the model's assumption about the library.
  - `Tagged(cause, kind)` is the wrapper `newError` puts around a cause so that `Is` matches both the cause and the kind. The model assumes this wrapper offers its kind to `As` before anything in its cause (`Chain.FindKind`). That order decides `GetKind` and `IsKhanError` of every constructed error that wraps a cause of another kind.
- `Resolution`: `getKind`, `GetKind`, `GetFields` and `IsKhanError`.
- `Display`: `StringifyField` and `khanError.Error`.
  - `Error` is modelled as a specification function (`NodeText`).
  - It is also modelled as a method (`NodeError`) that collects the keys, sorts them and writes each field, proved equal to `NodeText`.
- `Construction`: `newError`.
  - The argument classifier is `Classify`, a loop in `ClassifyArgs`.
  - `wrappedErrors` is `WrappedFields`.
  - The field merge is `Merge`. Its three loops are `InheritLoop`, `OverlayLoop` and `SetMessage`.
  - The final wrapping is `Emit`.
  - The method `NewError` runs these steps in order and is proved equal to the value `Construct`.
- `Constructors`: the eleven public constructors.
- `Wrapping`: `Wrap`, in two versions that differ in one branch (see "## Findings"):
  - `WrapAsWrittenSpec` is `Wrap` exactly as written, with the kind choice `RekindAsWritten`.
  - `WrapSpec` is the corrected `Wrap`, with the kind choice `Rekind`. The method `Wrap`, with its stepping-by-two loop and early returns, is proved equal to it.
  - `Wrapping.WrapVersionsAgree` proves that the two give the same result on every input except one case: well-formed pairs and a valid kind found inside a larger error.

The model abstracts these:

- The `fmt` renderings `%v`, `%q` and `%#v`, and the text of the library's own wrappers, are the `Printer` parameter.
- Go maps are `map<string, Value>`. A nil map and an empty map are both the empty map, and the package treats them alike.
- A map's iteration order is left open: the loops over map keys pick any key not yet seen, so their contracts hold for every order.

Notes on the model:

- `newError` never puts the `khanError` it builds into the returned chain (errors/khan.go:179-184). So for errors this package builds, `FindNode` finds nothing. `getKind`'s recursion and the inner-node branch of `wrappedErrors` are reached only by chains holding a node from elsewhere. The model keeps them and proves their contracts for all chains.
- `IsKhanError`: the comment at errors/khan.go:271-276 says only the outer error is checked. The code at errors/khan.go:279 calls `As`, which searches the whole chain (errors/stderrors.go:23-25). The model follows the code. `Resolution.IsKhanErrorLooksThroughForeignWrappers` proves that a foreign wrapper does not change the answer.
- `Display.FieldEntry` is total: a key that is not in the map displays as nothing. The source only displays keys taken from the map itself.

## Model

| member | source | states |
|---|---|---|
| Kinds.IsValidKind | errors/kinds.go:152-170 | a kind is valid exactly when it is one of the twelve catalogue constants, UnspecifiedKind included |
| Kinds.ErrorOf | errors/kinds.go:19-21 | a kind used as an error shows its own string, and converting that string back gives the kind |
| Kinds.StringOf | errors/kinds.go:148-150 | String gives the same string as Error, and that string converts back to the kind |
| Kinds.CatalogueDistinct | errors/kinds.go:84-144 | the catalogue has twelve kinds whose strings are pairwise distinct |
| Chain.NodeMatches | errors/khan.go:109-117 | a node link is Is-equal to itself and to its own kind, and to nothing else, nil included; along the chain it also matches what its wrapped error matches |
| Chain.Unwrap | errors/khan.go:105-107 | a node unwraps to its wrapped error; a bare kind unwraps to nil; every step goes strictly deeper |
| Chain.ChainOf | errors/stderrors.go:21 | the chain starts with the error itself and is no longer than its depth |
| Chain.FindNodeIsFirstMatch | errors/stderrors.go:37-52 | As for a *khanError target returns the first node on the chain, and fails only when the chain holds none |
| Chain.FindKindIsFirstMatch | errors/stderrors.go:37-52 | As for an errorKind target returns the first kind or tag mark on the chain, and fails only when there is none |
| Chain.FieldsOfIsFirstMatch | errors/khan.go:267-269 | the library's GetFields is the payload of the first field wrapper on the chain, and empty without one |
| Resolution.NodeKind | errors/kinds.go:190-203 | getKind always returns a valid kind |
| Resolution.NodeKindIsFirstValid | errors/kinds.go:190-203 | getKind returns the first valid kind along the node, the node inside it, and so on; UnspecifiedKind for nil or when none is valid |
| Resolution.GetKind | errors/kinds.go:174-186 | GetKind is total and always valid; with no node it is the valid bare kind found by As, otherwise UnspecifiedKind |
| Resolution.GetKindPrefersNodes | errors/kinds.go:174-178 | for any error with a node on its chain, GetKind is the first valid kind along that node and the nodes inside it, even when a valid kind or tag sits above the node (a tagged node is the example); a node with an invalid kind and no node inside gives UnspecifiedKind |
| Resolution.ForeignErrorIsUnspecified | errors/kinds.go:174-186 | a foreign error and nil have kind UnspecifiedKind, and a foreign error is not a khan error |
| Resolution.GetFields | errors/khan.go:267-269 | the fields of an error are the payload of the nearest field wrapper, and empty when there is none |
| Resolution.IsKhanError | errors/khan.go:277-283 | true only if some link on the chain carries a kind |
| Resolution.IsKhanErrorLooksThroughForeignWrappers | errors/khan.go:271-283 | wrapping in a foreign wrapper leaves IsKhanError unchanged, so the check is not limited to the outer error |
| Display.StringifyField | errors/khan.go:286-293 | a []string is rendered with %q; every other value with %v |
| Display.SortedKeys | errors/khan.go:76-82 | the sorted keys are strictly ascending and are exactly the map's keys |
| Display.AscendingUnique | errors/khan.go:82 | two ascending sequences with the same elements are equal, so the sorted order does not depend on the collection order |
| Display.LessTotal | errors/khan.go:82 | any two distinct strings are ordered one way or the other |
| Display.LessTransitive | errors/khan.go:82 | the string order is transitive |
| Display.LessAsymmetric | errors/khan.go:82 | no two strings are each less than the other |
| Display.InsertSorted | errors/khan.go:82 | inserting a new key into an ascending sequence keeps it ascending and adds exactly that key |
| Display.SortStrings | errors/khan.go:82 | sorting distinct keys gives an ascending sequence of exactly those keys |
| Display.CollectKeys | errors/khan.go:76-81 | the collected keys are exactly the map's keys, each once |
| Display.WriteFields | errors/khan.go:83-98 | writing the fields appends to the buffer exactly the visible ", k = v" entries in key order |
| Display.NodeError | errors/khan.go:52-101 | Error as written step by step equals the specification text; a nil node gives "" |
| Display.FieldsTextAppend | errors/khan.go:83-98 | the fields text of two key runs is the concatenation of their texts |
| Display.FieldsTextSplit | errors/khan.go:83-98 | the fields text splits around any one key |
| Display.CauseComesFirst | errors/khan.go:66-69 | with a cause, the text starts with the cause's text followed by "\nWrapped by: " |
| Display.VisibleFieldShown | errors/khan.go:83-97 | every field that is not hidden appears in the text as ", k = v" with its rendered value |
| Display.HiddenFieldsAreOmitted | errors/khan.go:85-96 | a node whose fields are all empty panic keys displays exactly like the same node with no fields |
| Display.AllHiddenIsEmpty | errors/khan.go:90-95 | hidden fields contribute nothing to the text |
| Display.MessageOnlyText | errors/khan.go:71-74 | a valid kind with a message and nothing else displays as the kind's string, a space and the message |
| Construction.Rejected | errors/khan.go:139-141 | every rejected argument comes from the arguments and has no case in the type switch |
| Construction.BadArgsInOrder | errors/khan.go:128-142 | the bad arguments are all the rejected arguments, in argument order |
| Construction.CauseIsLastError | errors/khan.go:131-132 | the cause is the last error argument, and nil when there is none |
| Construction.MessageIsLastString | errors/khan.go:133-134 | the message is the last string argument, and empty when there is none |
| Construction.ExtraIsLastMap | errors/khan.go:135-138 | the extra map is the last map argument of either map type, and empty when there is none |
| Construction.ClassifyArgs | errors/khan.go:128-142 | the argument loop fills the slots exactly as the classification defines |
| Construction.Details | errors/khan.go:145-148 | one rendered detail per bad argument |
| Construction.RenderDetails | errors/khan.go:145-148 | the rendering loop writes the %#v rendering of each bad argument at its index |
| Construction.BuildNode | errors/khan.go:127-153 | the node keeps the requested kind and takes the classified cause |
| Construction.BadArgsReported | errors/khan.go:143-153 | with bad arguments, the message gains the prefix and "Invalid error arguments" lists each rendered bad argument in order |
| Construction.WrappedFields | errors/khan.go:24-45 | the list is empty iff the node or its cause is nil; it is [fields of the cause] when those are non-empty, [{Message: cause text}] for a cause with no node, and otherwise [{Message, Kind} of the inner node] followed by the inner node's own list; it is no longer than the chain depth |
| Construction.Inherit | errors/khan.go:159-163 | present keys are kept; absent keys are copied except Source and Origin |
| Construction.InheritInto | errors/khan.go:159-163 | the copy loop gives the same map whatever order the keys are visited in |
| Construction.InheritAllTakesEarliest | errors/khan.go:155-164 | after inheriting from the list, a present key is unchanged, Source and Origin are never added, and any other key takes its value from the earliest entry that has it |
| Construction.InheritLoop | errors/khan.go:158-164 | the loop over the wrapped fields inherits from each entry in order |
| Construction.OverlayLoop | errors/khan.go:165-169 | the own extra map overwrites every key it has |
| Construction.SetMessage | errors/khan.go:171-177 | a non-empty message sets "Message"; an empty one changes nothing |
| Construction.Merge | errors/khan.go:155-177 | the merged map always holds Kind |
| Construction.MergePrecedence | errors/khan.go:155-177 | a merged key's value is taken in this order: a non-empty message, then the own extra map, then the computed kind, then the earliest inherited entry; Source and Origin are never inherited |
| Construction.NoArgsFields | errors/khan.go:155-157 | with no arguments, the fields are exactly {Kind} |
| Construction.OwnFieldsWin | errors/khan.go:143-177 | the own message (prefixed with the bad-argument notice when there are bad arguments) becomes Message; every own extra key reaches the result unchanged, except that the message wins over an extra "Message" and, with bad arguments, the report overwrites "Invalid error arguments" and "Message" |
| Construction.InheritedFieldKept | errors/khan.go:143-164 | a field of a cause that carries fields is inherited, with or without bad arguments, unless the new error sets that key itself (its extra map, a non-empty message, or the bad-argument report), or the key is Kind or positional |
| Construction.Emit | errors/khan.go:178-184 | the result is a field wrapper whose payload is the merged fields |
| Construction.EmitQueries | errors/khan.go:178-184 | the result adds no node to the chain, and As for a kind finds the requested kind first |
| Construction.EmitIs | errors/khan.go:182-184 | the result is Is-equal to its kind, and to anything its cause is Is-equal to |
| Construction.EmitMatchesOnlyItsKind | errors/khan.go:178-181 | without a cause, the result matches no other kind |
| Construction.Construct | errors/khan.go:126-185 | GetFields of the new error is the merged field map of the node |
| Construction.ConstructIs | errors/khan.go:182-184 | a new error is Is-equal to its kind and to whatever its cause is Is-equal to |
| Construction.ConstructKind | errors/khan.go:155-157 | GetKind of a new error is its kind, or UnspecifiedKind for an invalid kind, unless its cause carries a node; IsKhanError holds iff the kind is valid |
| Construction.UnwrapTwiceGivesCause | errors/khan.go:182-184 | unwrapping a new error twice gives its cause back, unless the cause is the bare kind itself |
| Construction.ForeignCauseText | errors/khan.go:29-38 | a foreign cause without fields passes its text on as the Message field, next to Kind |
| Construction.NewError | errors/khan.go:126-185 | newError as written step by step builds exactly the error Construct defines |
| Constructors.ConstructorContract | errors/kinds.go:29-81 | each constructor's result is Is-equal to its kind and is a khan error; without a node in the cause, GetKind gives the kind back |
| Constructors.NotFound | errors/kinds.go:29-31 | Is-equal to NotFoundKind and a khan error; GetKind is NotFoundKind unless a cause brings a node |
| Constructors.InvalidInput | errors/kinds.go:34-36 | Is-equal to InvalidInputKind and a khan error; GetKind is InvalidInputKind unless a cause brings a node |
| Constructors.NotAllowed | errors/kinds.go:39-41 | Is-equal to NotAllowedKind and a khan error; GetKind is NotAllowedKind unless a cause brings a node |
| Constructors.Unauthorized | errors/kinds.go:44-46 | Is-equal to UnauthorizedKind and a khan error; GetKind is UnauthorizedKind unless a cause brings a node |
| Constructors.Internal | errors/kinds.go:49-51 | Is-equal to InternalKind and a khan error; GetKind is InternalKind unless a cause brings a node |
| Constructors.GraphqlResponse | errors/kinds.go:54-56 | Is-equal to GraphqlResponseKind and a khan error; GetKind is GraphqlResponseKind unless a cause brings a node |
| Constructors.NotImplemented | errors/kinds.go:59-61 | Is-equal to NotImplementedKind and a khan error; GetKind is NotImplementedKind unless a cause brings a node |
| Constructors.TransientKhanService | errors/kinds.go:64-66 | Is-equal to TransientKhanServiceKind and a khan error; GetKind is TransientKhanServiceKind unless a cause brings a node |
| Constructors.KhanService | errors/kinds.go:69-71 | Is-equal to KhanServiceKind and a khan error; GetKind is KhanServiceKind unless a cause brings a node |
| Constructors.Service | errors/kinds.go:74-76 | Is-equal to ServiceKind and a khan error; GetKind is ServiceKind unless a cause brings a node |
| Constructors.TransientService | errors/kinds.go:79-81 | Is-equal to TransientServiceKind and a khan error; GetKind is TransientServiceKind unless a cause brings a node |
| Constructors.InvalidParameterScenario | errors/khan_test.go:60-65 | Internal("Message", 42) reports ["42"] under "Invalid error arguments" and the prefixed message |
| Constructors.WrappedKhanErrorScenario | errors/khan_test.go:78-94 | Internal(Unauthorized()) is Is-equal to both kinds and to the inner error; the inner error does not match Internal |
| Constructors.WrappedSentinelScenario | errors/khan_test.go:103-107 | NotFound(sentinel) is Is-equal to NotFoundKind and to the sentinel |
| Wrapping.FirstBadKey | errors/khan.go:217-222 | the first key position that is not a string, with every earlier key position a string; none when all are strings |
| Wrapping.PairsKeysAreGiven | errors/khan.go:216-224 | every key of the built map was given as a string key argument |
| Wrapping.PairsLastWins | errors/khan.go:216-224 | a key given more than once keeps the value of its last pair |
| Wrapping.WrapSpec | errors/khan.go:206-248 | the corrected Wrap: nil in gives nil out, whatever the arguments; any other input gives a khan error |
| Wrapping.WrapAsWrittenSpec | errors/khan.go:206-248 | Wrap as written: nil in gives nil out, whatever the arguments; any other input gives a khan error |
| Wrapping.ArgsReport | errors/khan.go:211-222 | a report comes back exactly when the argument count is odd or some key is not a string |
| Wrapping.WrapVersionsAgree | errors/khan.go:225-229 | Wrap as written and the corrected Wrap agree exactly when the input is nil, the pairs are malformed, or no valid kind is found inside a larger error |
| Wrapping.Wrap | errors/khan.go:206-248 | the parity check and the stepping-by-two loop with its early return give exactly WrapSpec, the corrected Wrap |
| Wrapping.WrapOddArgs | errors/khan.go:211-214 | an odd argument count gives an Internal error with the diagnostic message and "badargs" holding all the arguments, still Is-equal to the original error; this is decided before any key is examined |
| Wrapping.WrapNonStringKey | errors/khan.go:217-222 | the first key that is not a string gives an Internal error with the diagnostic message and {"key": that key}, still Is-equal to the original error |
| Wrapping.FailureReport | errors/khan.go:190-192 | a failure report is an Internal error carrying the diagnostic message and field, with the original error as its cause |
| Wrapping.RekindAsWritten | errors/khan.go:225-247 | every branch of the kind choice yields a khan error |
| Wrapping.Rekind | errors/khan.go:225-247 | the corrected kind choice yields a khan error in every branch, and differs from the code as written only when a valid kind is found inside a larger error |
| Wrapping.RekindKeepsKindAndFields | errors/khan.go:194-203 | rewrapping an error that is not itself a bare kind, whose chain carries a valid kind and no node, keeps that kind and the original error for Is, shows each new pair, and keeps every other non-positional field of the original (a node on the chain is covered by Wrapping.RekindFoundInside and Wrapping.RekindKhanErrorBranch) |
| Wrapping.RekindBareKind | errors/khan.go:226-229 | rewrapping a bare valid kind gives that kind with the fields {Kind} plus the new pairs |
| Wrapping.RekindForeign | errors/khan.go:233-241 | an error with no valid kind and no node becomes the cause of an Internal error that shows each new pair |
| Wrapping.WrapKeepsKind | errors/khan.go:194-196 | when the pairs are well formed (an even count, every key a string) and a valid kind sits on the error's chain, the corrected Wrap keeps GetKind of the error it wraps, whatever node that error holds, and stays Is-equal to it; otherwise the result is an Internal error (Wrapping.WrapOddArgs, Wrapping.WrapNonStringKey, Wrapping.RekindForeign, Wrapping.RekindUnknownKind) |
| Wrapping.WrapShowsPairs | errors/khan.go:216-247 | in Wrap as written and in the corrected Wrap, unless a node of unspecified kind makes Wrap fail, every pair shows in the result with the value of its last occurrence |
| Wrapping.WrapAsWrittenReplaces | errors/khan.go:225-229 | as written, an error whose chain carries a valid kind gets that kind and exactly the fields {Kind} plus the pairs; the result matches the original under Is only if the original was the bare kind or that very error |
| Wrapping.RekindFoundInside | errors/khan.go:194-196 | the corrected valid-kind branch keeps GetKind of the original and stays Is-equal to it |
| Wrapping.RekindKhanErrorBranch | errors/khan.go:233-247 | with no valid kind on the chain, a node of known kind becomes the cause of a new error of that kind: GetKind reports it, Is matches the node and the kind, and every pair is shown; both versions take this branch alike |
| Wrapping.NodeCauseQueries | errors/khan.go:242-247 | newError(getKind(node), node, fields) has the node's kind and is Is-equal to the node and to that kind |
| Wrapping.RekindUnknownKind | errors/khan.go:242-246 | a node whose kind resolves to UnspecifiedKind makes Wrap fail with the Internal report "Cannot determine kind of error-to-wrap" wrapping the original; the pairs are dropped and GetKind of the report reads UnspecifiedKind |
| Wrapping.UnknownKindReport | errors/khan.go:190-192 | that report carries its message, is Is-equal to Internal and to the original, and its GetKind is decided by the node it wraps |
| Wrapping.RekindShowsPairs | errors/khan.go:216-247 | the corrected kind choice shows every pair unless it fails |
| Wrapping.RekindAsWrittenShowsPairs | errors/khan.go:216-247 | the kind choice as written shows every pair unless it fails |
| Wrapping.KindWithFieldsQueries | errors/khan.go:178-181 | a field wrapper around a bare kind has that kind, is Is-equal to it, and carries its payload |
| Wrapping.KindWithFieldsMatches | errors/khan.go:178-181 | a field wrapper around a bare kind is Is-equal to itself and to the kind, and to nothing else |
| Wrapping.CauseAndFieldsShape | errors/khan.go:178-184 | newError with a cause other than the bare kind keeps the cause, tagged with the kind, under the field wrapper |
| Wrapping.ConstructFromFields | errors/khan.go:126-185 | newError with only a field map builds {Kind} plus that map around the bare kind |
| Wrapping.CauseAndFieldsQueries | errors/khan.go:126-185 | newError with a node-free cause and a field map reports its kind and is Is-equal to both the kind and the cause |
| Wrapping.CauseAndFieldsLookup | errors/khan.go:126-185 | newError with a cause and a field map shows every new pair and inherits every other non-positional field of the cause |
| Wrapping.RekindAsWrittenForgetsOriginal | errors/khan.go:226-229 | as written, an error whose chain carries a valid kind is rewrapped as {Kind} plus the new pairs around the bare kind, and nothing of the original is kept |
| Wrapping.RekindAsWrittenLosesMessage | errors/khan.go:226-229 | as written, the original message is lost and the original error no longer matches Is |
| Wrapping.TestWrapError | errors/khan_test.go:143 | NotFound("Testing one two", {three: "not yet"}) carries its kind and the message field |
| Wrapping.TestWrapAsWritten | errors/khan_test.go:142-148 | as written, Wrap(e, "three", 4) loses e's message and e itself |
| Wrapping.TestWrapCorrected | errors/khan_test.go:142-148 | corrected, Wrap(e, "three", 4) keeps the message and shows three = 4 |

## Left out

- errors/stderrors.go: its one-line aliases of the chain library (Cause, Unwrap, As, Is) are not modelled one by one. As and Is appear only as the walks in `Chain`.
- The chain library's internals are not part of this model: stack-depth capture (the 2 at errors/khan.go:180, 184), reflection in As, equality markers in Is, and its own "Fields: [...], Cause: ..." rendering. The rendering enters only as `Printer.wrapperText`.
- The fmt verbs are uninterpreted functions in `Printer`, so no exact rendered string is claimed beyond what they return.
- The commented-out MarshalLogObject (errors/khan.go:250-265) is dead code.
- _example/main.go is a printing demo with no logic of its own.
- Construction.NewError: the source writes "Invalid error arguments" into the caller's own map in place (errors/khan.go:149-152). The model builds a new map, so this aliasing is not captured.
- A typed-nil error (a nil pointer inside a non-nil interface) is not modelled: an error is either nil or a value.
- Display.SortStrings: it requires distinct keys, which the keys of a map always are, and it is an insertion sort, not Go's sort algorithm. Only its outcome is modelled.
- Display.FieldEntry: it is total and displays an absent key as nothing. The source only displays keys it took from the map.
- Wrapping.WrapSpec: it is the corrected Wrap, not the code as written. The code as written is Wrapping.WrapAsWrittenSpec, and Wrapping.WrapVersionsAgree says exactly where the two differ (see "## Findings").
- Wrapping.Wrap: the step-by-step method computes the corrected Wrap (WrapSpec). As written, the final call passes no cause when a valid kind is found (errors/khan.go:226-228); that version exists only as the value WrapAsWrittenSpec.
- Wrapping.WrapKeepsKind: the Is-equality to the original holds for the corrected Wrap only. As written, Wrapping.WrapAsWrittenReplaces shows that the kind is kept but the original matches under Is only if it was the bare kind or the result itself.

## Findings

| source | as written | input that shows it | evidently intended | confidence | as-written member | corrected member |
|---|---|---|---|---|---|---|
| errors/khan.go:226-229 | when As finds a valid errorKind anywhere on the chain, Wrap calls newError(kind, fields) without err, so the wrapped error, its message and its fields are dropped; every error the constructors build carries its kind on the chain, so this branch catches all of them | Wrap(NotFound("Testing one two", Fields{"three": "not yet"}), "three", 4) has no Message field and is no longer Is-equal to the original; the package's own test (errors/khan_test.go:142-148) expects Message "Testing one two" and the original as the cause; Wrapping.TestWrapAsWritten, Wrapping.RekindAsWrittenLosesMessage and Wrapping.WrapAsWrittenReplaces prove the loss, Wrapping.TestWrapCorrected and Wrapping.RekindKeepsKindAndFields prove the corrected behaviour, and Wrapping.WrapVersionsAgree proves that this is the only case where the two differ | pass err as the cause, newError(kind, err, fields), unless err is the bare kind itself; the doc comment at errors/khan.go:194-196 promises the same kind plus the new pairs | medium, not executed; it rests on the chain library's As finding a kind below a field wrapper, as errors/stderrors.go:37-49 describes | Wrapping.RekindAsWritten | Wrapping.Rekind |
