# Roslyn entry-point synthesis and companions, modelled in Dafny

This project models, and proves properties of, six pieces of the Roslyn repository.

- **Synthesized entry points** (`SynthesizedEntryPointSymbol.cs`). The compiler synthesizes a `<Main>` that forwards to a user `async Main`, a `<Main>` that runs a script, or a `<Factory>` that builds an interactive submission. The model covers `Create`, which chooses the variant and looks up `GetAwaiter`/`GetResult` with missing-member diagnostics. It also covers `GetRequiredMethod`, `CreateParameterlessCall`, the forwarder's constructor, the three `CreateBody` methods and the method façade. Types, methods, diagnostics and bound nodes are datatypes (`bound_tree.dfy`). Member lookup and the binder are parameters of the model.
- **The change-signature dialog's view model** (`ChangeSignatureDialogViewModel.cs`). It is a class that holds:
  - the optional `this` parameter;
  - two reorderable groups;
  - the optional `params` parameter;
  - the selected row.

  Its methods move, remove and restore parameters in place. Its queries say what may be moved, removed or restored, and what configuration the dialog returns.
- **The strong-name signature size** (`SigningUtilities.cs`). It comes from a key size, found through a chain of fallbacks.
- **The perf-result normalisers** (`ConsumptionParser2/Program.cs`). They normalise branch names, user names, scenario names and trace-folder dates.
- **The consumption-result parser** (`ConsumptionParser.cs`). It works over an already parsed element tree. It also covers the counter lookup by name.
- **Three harness helpers** (`Tools.cs`): `FirstLine`, `ProcessResult.Failed`/`Succeeded`, and Robocopy's exit-code check.

Code written as expressions is modelled as functions. The view model is a class whose methods `modify` its fields. `CalculateStrongNameSignatureSize`, `RemovePrefix`, `NormalizeScenario`, `Parse` and the `ScenarioResult` indexer are methods with the source's reassignments and loops, proved against specification functions. Wherever the source's Debug assertions or `SingleOrDefault` demand something of callers, the model turns it into a precondition. The private `Move` is called only from `MoveUp` and `MoveDown`, after their `Debug.Assert(CanMoveUp)` and `Debug.Assert(CanMoveDown)`, so its index bounds are a precondition too. Wherever the source throws on bad input, the model returns a `Result` or `Option`.

Notes on the code of `SynthesizedEntryPointSymbol.cs`:

- `GetRequiredMethod` throws for two or more members, through `SingleOrDefault`. This is a precondition here.
- `GetRequiredMethod` does not check the found method's parameter count.
- The forwarder ignores the binder's success flag.
- Accessibility is always `Private`.

## Model

| member | source | states |
|---|---|---|
| SynthesizedEntryPoint.Create | src/Compilers/CSharp/Portable/Symbols/Synthesized/SynthesizedEntryPointSymbol.cs:23-55 | A submission compilation gets a `<Factory>` submission entry point. It returns the initializer's type and has the single parameter `object[] submissionArray`. Any other compilation gets a void `<Main>` script entry point with no parameters. Diagnostics are only appended. |
| SynthesizedEntryPoint.AwaitChainDiagnostics | src/Compilers/CSharp/Portable/Symbols/Synthesized/SynthesizedEntryPointSymbol.cs:43-50 | An error-typed `Task` skips both lookups. `GetAwaiter` is the sole method of that name on `Task`. `GetResult` is looked up on `GetAwaiter`'s return type, and only when `GetAwaiter` was found. The chain adds at most one missing-member diagnostic: exactly when `Task` is usable but a method is missing. That diagnostic names the type the failing lookup ran on. |
| SynthesizedEntryPoint.GetRequiredMethod | src/Compilers/CSharp/Portable/Symbols/Synthesized/SynthesizedEntryPointSymbol.cs:305-318 | A lone method member is returned and the diagnostics are left unchanged. No method is returned exactly when there is no member or the one member is not a method. In that case one `ERR_MissingPredefinedMember(type, name)` is appended, at `NoLocation` unless a location is given. Two or more members are excluded by the precondition. |
| SynthesizedEntryPoint.CreateParameterlessCall | src/Compilers/CSharp/Portable/Symbols/Synthesized/SynthesizedEntryPointSymbol.cs:320-335 | A compiler-generated call of the method on the receiver, with no arguments, typed by the method's return type. |
| SynthesizedEntryPoint.FacadeIsUniform | src/Compilers/CSharp/Portable/Symbols/Synthesized/SynthesizedEntryPointSymbol.cs:109-288 | Every variant is private, static and implicitly declared, with arity 0 and no type parameters, type arguments or locations. None is virtual, abstract, override, extern or async. The local-syntax-offset and security queries fail as unreachable. |
| SynthesizedEntryPoint.ReservedNames | src/Compilers/CSharp/Portable/Symbols/Synthesized/SynthesizedEntryPointSymbol.cs:18-19 | The name is `<Factory>` exactly for a submission and `<Main>` otherwise. Neither name starts with an identifier character. |
| BoundTree.Compilation.ReportUseSiteDiagnostics | src/Compilers/CSharp/Portable/Symbols/Synthesized/SynthesizedEntryPointSymbol.cs:296-303 | A symbol with a use-site diagnostic gets exactly that diagnostic appended, at no location. A symbol without one leaves the diagnostics unchanged. No missing-member diagnostic is ever added. |
| SynthesizedEntryPoint.DeriveParameters | src/Compilers/CSharp/Portable/Symbols/Synthesized/SynthesizedEntryPointSymbol.cs:357 | One parameter per parameter of the user's Main, with the same name, type, ordinal and ref kind. |
| SynthesizedEntryPoint.UserMainInvocation | src/Compilers/CSharp/Portable/Symbols/Synthesized/SynthesizedEntryPointSymbol.cs:359-375 | A static call of the user's Main, typed by its return type, passing the forwarder's parameters in order. |
| SynthesizedEntryPoint.NewAsyncForwardEntryPoint | src/Compilers/CSharp/Portable/Symbols/Synthesized/SynthesizedEntryPointSymbol.cs:351-378 | For a Main of 0 or 1 parameters it builds a `<Main>` forwarder. The forwarder copies the parameters and keeps the binder's `GetAwaiter().GetResult()` call. Its return type is that call's type, and it takes the binder's diagnostics. |
| SynthesizedEntryPoint.CreateAsyncForwardBody | src/Compilers/CSharp/Portable/Symbols/Synthesized/SynthesizedEntryPointSymbol.cs:391-432 | The body has no locals. If the forwarder returns void, it has two statements: the awaited call, then `return;`. Otherwise it has one, `return <awaited call>`. Every statement is compiler-generated exactly in the void case, and the return agrees with the return type. |
| SynthesizedEntryPoint.CreateScriptBody | src/Compilers/CSharp/Portable/Symbols/Synthesized/SynthesizedEntryPointSymbol.cs:460-517 | One local of the containing type and three statements. The first assigns a new script object. The second calls `<Initialize>`, `GetAwaiter` and `GetResult` in turn on it. The third is `return;`. Everything is compiler-generated and only its own local is used. |
| SynthesizedEntryPoint.CreateSubmissionBody | src/Compilers/CSharp/Portable/Symbols/Synthesized/SynthesizedEntryPointSymbol.cs:548-603 | One local and two statements. The first assigns `new Submission(submissionArray)`, passing the parameter as the only argument. The second returns `local.<Initialize>()`, whose type is the entry point's return type. |
| SynthesizedEntryPoint.CreateBody | src/Compilers/CSharp/Portable/Symbols/Synthesized/SynthesizedEntryPointSymbol.cs:72 | Dispatches on the variant. Every body returns values of the entry point's return type and has the variant's number of locals and statements. |
| SynthesizedEntryPoint.ScriptEntryPointBuilds | src/Compilers/CSharp/Portable/Symbols/Synthesized/SynthesizedEntryPointSymbol.cs:460-470 | A script compilation with a usable `Task` and no missing member meets `CreateBody`'s assertions. It gets a body of one local and three statements that ends in `return;`. |
| ChangeSignature.ChangeSignatureDialogViewModel.constructor | src/VisualStudio/Core/Def/Implementation/ChangeSignature/ChangeSignatureDialogViewModel.cs:33-60 | It wraps every parameter, none of them removed. It selects row 1 when there is a `this` parameter and row 0 otherwise. It starts with the OK button disabled. |
| ChangeSignature.ChangeSignatureDialogViewModel.AllParametersRows | src/VisualStudio/Core/Def/Implementation/ChangeSignature/ChangeSignatureDialogViewModel.cs:236-256 | The rows are `this`, then group 1, then group 2, then `params`. Each in-range index shows the item of the part it falls in. |
| ChangeSignature.LayoutParts | src/VisualStudio/Core/Def/Implementation/ChangeSignature/ChangeSignatureDialogViewModel.cs:236-256 | The list is as long as its parts together and holds each part's items at that part's offset. |
| ChangeSignature.LayoutInjective | src/VisualStudio/Core/Def/Implementation/ChangeSignature/ChangeSignatureDialogViewModel.cs:236-256 | Two lists built from parts of the same shapes are equal only when their parts are equal. |
| ChangeSignature.ChangeSignatureDialogViewModel.CanMoveUpRows | src/VisualStudio/Core/Def/Implementation/ChangeSignature/ChangeSignatureDialogViewModel.cs:258-276 | An item can move up exactly when it is in a group and is not the first item of its group. |
| ChangeSignature.ChangeSignatureDialogViewModel.CanMoveDownRows | src/VisualStudio/Core/Def/Implementation/ChangeSignature/ChangeSignatureDialogViewModel.cs:278-296 | An item can move down exactly when it is in a group and is not the last item of its group. |
| ChangeSignature.ChangeSignatureDialogViewModel.SetSelectedIndex | src/VisualStudio/Core/Def/Implementation/ChangeSignature/ChangeSignatureDialogViewModel.cs:365-373 | `-1` becomes no selection. The method reports a change exactly when the selection differs from the old one. |
| ChangeSignature.ChangeSignatureDialogViewModel.Move | src/VisualStudio/Core/Def/Implementation/ChangeSignature/ChangeSignatureDialogViewModel.cs:316-328 | Only the chosen group changes: `RemoveAt(index)` then `Insert(index + delta)`. The selection shifts by `delta`, and `-1` becomes no selection. |
| ChangeSignature.MoveKeepsItems | src/VisualStudio/Core/Def/Implementation/ChangeSignature/ChangeSignatureDialogViewModel.cs:322-325 | Removing an item and inserting it elsewhere keeps the group's items as a multiset. |
| ChangeSignature.AdjacentMoveIsSwap | src/VisualStudio/Core/Def/Implementation/ChangeSignature/ChangeSignatureDialogViewModel.cs:322-325 | A move by one place exchanges the item with its neighbour. |
| ChangeSignature.LayoutAdjacentMove | src/VisualStudio/Core/Def/Implementation/ChangeSignature/ChangeSignatureDialogViewModel.cs:298-328 | A move by one place within a group exchanges two adjacent rows of the whole list. |
| ChangeSignature.ChangeSignatureDialogViewModel.MoveUp | src/VisualStudio/Core/Def/Implementation/ChangeSignature/ChangeSignatureDialogViewModel.cs:298-305 | The list is the old one with the selected row and the row above it exchanged. The selection moves up with the item, the group sizes are unchanged, and the item can move back down. |
| ChangeSignature.ChangeSignatureDialogViewModel.MoveDown | src/VisualStudio/Core/Def/Implementation/ChangeSignature/ChangeSignatureDialogViewModel.cs:307-314 | The list is the old one with the selected row and the row below it exchanged. The selection moves down with the item, the group sizes are unchanged, and the item can move back up. |
| ChangeSignature.SwappedInvolution | src/VisualStudio/Core/Def/Implementation/ChangeSignature/ChangeSignatureDialogViewModel.cs:298-314 | Exchanging the same two rows twice restores the list. |
| ChangeSignature.ChangeSignatureDialogViewModel.MoveUpThenDown | src/VisualStudio/Core/Def/Implementation/ChangeSignature/ChangeSignatureDialogViewModel.cs:298-314 | `MoveUp` followed by `MoveDown` restores both groups and the selection. |
| ChangeSignature.ChangeSignatureDialogViewModel.CanRemove | src/VisualStudio/Core/Def/Implementation/ChangeSignature/ChangeSignatureDialogViewModel.cs:80-100 | Removal is false with no selection and on the `this` row. A selected index outside the list fails with `ArgumentOutOfRange`, where the source's indexer throws. Otherwise it holds exactly when the selected item is not removed. |
| ChangeSignature.ChangeSignatureDialogViewModel.CanRestore | src/VisualStudio/Core/Def/Implementation/ChangeSignature/ChangeSignatureDialogViewModel.cs:102-122 | Restoring is false with no selection and on the `this` row. A selected index outside the list fails with `ArgumentOutOfRange`, where the source's indexer throws. Otherwise it holds exactly when the selected item is removed. |
| ChangeSignature.ChangeSignatureDialogViewModel.RemoveRestoreExclusive | src/VisualStudio/Core/Def/Implementation/ChangeSignature/ChangeSignatureDialogViewModel.cs:80-122 | Removal and restoring fail on the same selections. Otherwise they are never both offered, and on a selected row other than `this` one of them is. |
| ChangeSignature.LayoutSetFlag | src/VisualStudio/Core/Def/Implementation/ChangeSignature/ChangeSignatureDialogViewModel.cs:124-148 | Flagging the item in its part is the same as flagging that row of the whole list. |
| ChangeSignature.ChangeSignatureDialogViewModel.Remove | src/VisualStudio/Core/Def/Implementation/ChangeSignature/ChangeSignatureDialogViewModel.cs:124-135 | With no selection it fails with `InvalidOperation`, where `Value` on the empty selection throws. With a selection outside the list it fails with `ArgumentOutOfRange`. A failure changes nothing. Otherwise only the selected row changes, and it becomes removed. Afterwards it can be restored and not removed. |
| ChangeSignature.ChangeSignatureDialogViewModel.Restore | src/VisualStudio/Core/Def/Implementation/ChangeSignature/ChangeSignatureDialogViewModel.cs:137-148 | It fails as `Remove` does and then changes nothing. Otherwise only the selected row changes, and it stops being removed. Afterwards it can be removed and not restored. |
| ChangeSignature.Kept | src/VisualStudio/Core/Def/Implementation/ChangeSignature/ChangeSignatureDialogViewModel.cs:154-155 | The kept symbols are a sub-multiset of the group's symbols. They are all of them exactly when nothing is removed. |
| ChangeSignature.KeptAppend | src/VisualStudio/Core/Def/Implementation/ChangeSignature/ChangeSignatureDialogViewModel.cs:154-155 | Filtering distributes over concatenation, so it keeps the order of what it keeps. |
| ChangeSignature.ChangeSignatureDialogViewModel.GetParameterConfiguration | src/VisualStudio/Core/Def/Implementation/ChangeSignature/ChangeSignatureDialogViewModel.cs:150-157 | It keeps the original `this` parameter and each group's unremoved symbols in order. It keeps `params` exactly when present and not removed. Each group of the result is a sub-multiset of the original group. |
| ChangeSignature.LayoutRemoved | src/VisualStudio/Core/Def/Implementation/ChangeSignature/ChangeSignatureDialogViewModel.cs:347-355 | Some row is removed exactly when `this`, a group item or `params` is. |
| ChangeSignature.KeptIsOriginal | src/VisualStudio/Core/Def/Implementation/ChangeSignature/ChangeSignatureDialogViewModel.cs:347-355 | For a rearranged group, the kept symbols equal the original ones exactly when nothing is removed and the order is the original's. |
| ChangeSignature.ChangeSignatureDialogViewModel.OkButtonMeansChange | src/VisualStudio/Core/Def/Implementation/ChangeSignature/ChangeSignatureDialogViewModel.cs:347-355 | The OK button is enabled exactly when the returned configuration differs from the original, or when the `this` row has been flagged. |
| SigningUtilities.FirstNonZero | src/Compilers/Core/Portable/PEWriter/SigningUtilities.cs:56-69 | The result is 0 exactly when every candidate is 0. Otherwise it is the first non-zero candidate. |
| SigningUtilities.CalculateStrongNameSignatureSize | src/Compilers/Core/Portable/PEWriter/SigningUtilities.cs:45-78 | The size is 0 with no assembly and no key, and 0 exactly when every key size is 0. The key size tried first is half the signature key's length, then the public key's length, then the modulus length. The size is 128 below 160 bytes and the key size minus 32 from there on, so it is never between 1 and 127. |
| SigningUtilities.SignatureSizeMonotone | src/Compilers/Core/Portable/PEWriter/SigningUtilities.cs:77 | A larger key never gets a smaller signature. From 160 bytes on, the size grows one for one with the key. |
| ConsumptionProgram.WithoutPrefix | src/Test/Perf/ConsumptionParser2/Program.cs:85-92 | With the prefix, the prefix followed by the result is the target. Without it, the result is the target. |
| ConsumptionProgram.RemovePrefix | src/Test/Perf/ConsumptionParser2/Program.cs:85-92 | It computes `WithoutPrefix`, and the result is always a suffix of the target. |
| ConsumptionProgram.WithoutPrefixOnce | src/Test/Perf/ConsumptionParser2/Program.cs:85-92 | A doubled prefix is stripped only once. |
| ConsumptionProgram.NormalizeBranch | src/Test/Perf/ConsumptionParser2/Program.cs:94-102 | It strips one `Roslyn-` prefix, then maps exactly `HEAD` to `master`. The result is never `HEAD`. |
| ConsumptionProgram.RoslynHeadIsMaster | src/Test/Perf/ConsumptionParser2/Program.cs:94-102 | `Roslyn-HEAD` and `HEAD` both become `master`. |
| ConsumptionProgram.NormalizeUsername | src/Test/Perf/ConsumptionParser2/Program.cs:104-107 | It strips one leading `redmond\` and otherwise changes nothing. |
| ConsumptionProgram.TrailingNumbersStripped | src/Test/Perf/ConsumptionParser2/Program.cs:109-116 | The result is a prefix with no numeric last character, followed in the input only by numeric characters. |
| ConsumptionProgram.TrailingNumbersStrippedUnique | src/Test/Perf/ConsumptionParser2/Program.cs:109-116 | Those three properties determine the result. |
| ConsumptionProgram.TrailingNumbersStrippedIdempotent | src/Test/Perf/ConsumptionParser2/Program.cs:109-116 | Normalising a normalised scenario name changes nothing. |
| ConsumptionProgram.NormalizeScenario | src/Test/Perf/ConsumptionParser2/Program.cs:109-116 | The loop drops trailing numeric characters. Its result has the three properties and equals `TrailingNumbersStripped`. |
| ConsumptionProgram.Split | src/Test/Perf/ConsumptionParser2/Program.cs:120-123 | `String.Split(char)` yields at least one piece, and no piece contains the separator. |
| ConsumptionProgram.JoinSplit | src/Test/Perf/ConsumptionParser2/Program.cs:120-123 | Joining the pieces with the separator gives the string back. |
| ConsumptionProgram.SplitJoin | src/Test/Perf/ConsumptionParser2/Program.cs:120-123 | Pieces without the separator, joined, split back into the same pieces. |
| ConsumptionProgram.SplitCount | src/Test/Perf/ConsumptionParser2/Program.cs:120-123 | There is one piece more than there are separators. |
| ConsumptionProgram.NormalizeDate | src/Test/Perf/ConsumptionParser2/Program.cs:118-130 | With no `_` there is no date. |
| ConsumptionProgram.NormalizeDateRoundTrip | src/Test/Perf/ConsumptionParser2/Program.cs:118-130 | `D_H-M-S`, optionally followed by more `-` fields such as the AM/PM part of the trace-folder names, becomes `D H:M:S`. |
| ConsumptionProgram.NormalizeDateTooFewFields | src/Test/Perf/ConsumptionParser2/Program.cs:118-130 | A time part with fewer than three `-` fields gives no date; the source throws instead. |
| ConsumptionParser.Collect | src/Test/Perf/ConsumptionParser2/ConsumptionParser.cs:32-42 | All counters parse exactly when each one does. The parsed counters are then those of the elements, one for one and in order. |
| ConsumptionParser.CollectFirstFailure | src/Test/Perf/ConsumptionParser2/ConsumptionParser.cs:32-42 | A failed run reports the error of its first failing counter. |
| ConsumptionParser.ParseCounter | src/Test/Perf/ConsumptionParser2/ConsumptionParser.cs:34-41 | A counter without `Name` fails with that missing attribute. A counter parses exactly when `Name`, `Units`, `Default`, `Top` and `Iteration` are all present and `bool.Parse` accepts `Default` and `Top` and `int.Parse` accepts `Iteration`. The parsed counter holds those values and the element's text. |
| ConsumptionParser.ParseCounterFailure | src/Test/Perf/ConsumptionParser2/ConsumptionParser.cs:34-41 | Every failure names one of the five attributes that is absent, a `Default` or `Top` text that `bool.Parse` rejects, or an `Iteration` text that `int.Parse` rejects. |
| ConsumptionParser.ParseScenario | src/Test/Perf/ConsumptionParser2/ConsumptionParser.cs:26-43 | A scenario without `Name` fails. The scenario is skipped exactly when its name is `..TestDiagnostics..`. A kept scenario carries its element's name. |
| ConsumptionParser.ParseScenarioCounters | src/Test/Perf/ConsumptionParser2/ConsumptionParser.cs:32-43 | A kept scenario holds all of its element's `CounterResult` descendants, parsed and in document order. |
| ConsumptionParser.KeptNames | src/Test/Perf/ConsumptionParser2/ConsumptionParser.cs:27-30 | No kept name is `..TestDiagnostics..`. |
| ConsumptionParser.KeptElements | src/Test/Perf/ConsumptionParser2/ConsumptionParser.cs:26-30 | Every kept scenario element has a name, and that name is not `..TestDiagnostics..`. There are never more kept elements than elements. |
| ConsumptionParser.CollectKeptAt | src/Test/Perf/ConsumptionParser2/ConsumptionParser.cs:23-44 | A successful run keeps exactly the values of the steps that yield one, in their order. |
| ConsumptionParser.KeptElementsAt | src/Test/Perf/ConsumptionParser2/ConsumptionParser.cs:26-30 | On success, the kept scenario elements are exactly those whose parse yields a scenario, in their order. |
| ConsumptionParser.ParseScenariosKeepsElements | src/Test/Perf/ConsumptionParser2/ConsumptionParser.cs:23-44 | On success, output scenario `k` is the parse of the `k`-th kept scenario element. There are as many output scenarios as kept elements. |
| ConsumptionParser.ParseKeepsCounterOrder | src/Test/Perf/ConsumptionParser2/ConsumptionParser.cs:23-44 | On success, each output scenario holds all the `CounterResult` descendants of its kept element, parsed and in document order. |
| ConsumptionParser.KeptNamesOfElements | src/Test/Perf/ConsumptionParser2/ConsumptionParser.cs:26-30 | The kept names are the names of the kept elements, one for one. |
| ConsumptionParser.ParseScenariosKeepsOrder | src/Test/Perf/ConsumptionParser2/ConsumptionParser.cs:23-44 | On success, the output scenarios have the names of the input scenarios that are not skipped, in document order. |
| ConsumptionParser.ParseScenariosSkipsDiagnostics | src/Test/Perf/ConsumptionParser2/ConsumptionParser.cs:23-46 | On success, there are exactly as many output scenarios as input scenarios not named `..TestDiagnostics..`, and none of them has that name. |
| ConsumptionParser.ParseCounterElements | src/Test/Perf/ConsumptionParser2/ConsumptionParser.cs:32-42 | The inner loop computes `Collect` of the counters' results. |
| ConsumptionParser.ParseScenarioElement | src/Test/Perf/ConsumptionParser2/ConsumptionParser.cs:25-43 | One pass of the outer loop computes `ParseScenario`. |
| ConsumptionParser.Parse | src/Test/Perf/ConsumptionParser2/ConsumptionParser.cs:18-47 | The loops compute `ParseDocument`: the kept scenarios in document order, or the first error. |
| ConsumptionParser.CounterNamed | src/Test/Perf/ConsumptionParser2/ConsumptionParser.cs:59-71 | It returns the first counter, in order, with the given name. It returns nothing exactly when no counter has that name. |
| PerfTools.MatchAtLineSeparators | src/Test/Perf/util/Tools.cs:169-172 | A line terminator matches exactly at a carriage return or line feed. `\r\n` is preferred to `\r`. |
| PerfTools.SplitFromFirstPiece | src/Test/Perf/util/Tools.cs:169-172 | The first piece of the line split ends at the first carriage return or line feed. |
| PerfTools.FirstLine | src/Test/Perf/util/Tools.cs:169-172 | It returns a prefix of the input without carriage returns or line feeds, followed in the input by a terminator or the end. With no terminator it is the whole input, and for empty input it is empty. |
| PerfTools.CrLfIsOneTerminator | src/Test/Perf/util/Tools.cs:169-172 | `a\r\nb` splits into `a` and `b`, with no empty line between them. |
| PerfTools.ProcessResult.Succeeded | src/Test/Perf/util/Tools.cs:230-231 | A process succeeded exactly when its exit code is 0. `Failed` is the negation. |
| PerfTools.CopyDirectory | src/Test/Perf/util/Tools.cs:211-220 | The copy fails with an `IOException` naming both directories exactly when Robocopy's exit code is above 7. The default switches are `/mir` (`DefaultCopyArgument`). The same check appears at lines 24-33. |
| PerfTools.CopySucceedsWhereProcessFails | src/Test/Perf/util/Tools.cs:211-231 | Exit codes 1 to 7 are a successful copy but a failed process. |

## Left out

- Member lookup, the binder's `GetAwaitableExpressionInfo`, `GetScriptConstructor`/`GetScriptInitializer`, well-known and special type lookups, use-site diagnostics and dummy syntax are compiler machinery. They are fields of the `Compilation` value or parameters of the model.
- SynthesizedEntryPoint.NewAsyncForwardEntryPoint: the binder is a total function that always returns a `GetAwaiter().GetResult()` call. The source reads that call's type whatever the binder's success flag says, so a null call, on which the source would throw, is not modelled.
- The `#if DEBUG` check that the initializer's type derives from `Task` is a debug assertion only. The `#if Debug` void/int check is never compiled. Neither is modelled, and the forwarder's return type is not restricted.
- `SynthesizedEntryPoint.GetRequiredMethod`: two or more members are a precondition. The source throws through `SingleOrDefault` instead of diagnosing them.
- The dialog's display: the signature text, automation texts, property-change notifications and the parameter display strings.
- ChangeSignature: each parameter view model is a value held in the view model's fields, not a shared object. Aliasing between rows and other holders of the same view model is not modelled.
- `ChangeSignature.ChangeSignatureDialogViewModel.MoveUp`: the contract does not restate that each group's items are kept as a multiset and the other group is unchanged. Those facts follow from `Move`'s contract with `MoveKeepsItems`. `MoveDown` is the same.
- RSA signing and SHA-1 hashing (`CalculateRsaSignature`, `CalculateSha1`) are library calls. The strong-name key file providers are file-system and crypto wrappers.
- `ConsumptionProgram.IsNumber`: `char.IsNumber` is modelled on the Latin-1 range only. That covers the decimal digits, superscripts two, three and one, and the vulgar fractions. Numeric characters beyond U+00FF are not recognised.
- ConsumptionProgram.WithoutPrefix, ConsumptionProgram.RemovePrefix, ConsumptionProgram.NormalizeBranch, ConsumptionProgram.NormalizeUsername: `target.StartsWith(prefix)` compares by the current culture, but the model compares ordinally. They differ on inputs with characters the culture ignores, such as a leading soft hyphen, or treats as equal. The `HEAD` test and `Split(char)` are ordinal in the source too.
- `ConsumptionParser.Parse`: `XDocument.Parse` is not modelled. The document arrives as an element tree, `XElement.Value` is an element field, and `bool.Parse`/`int.Parse` are parameters. The 32-bit range of `int.Parse` is left to that parameter.
- `ConsumptionParser.Parse`: the source's nested loops are split into the outer loop, one scenario, and the inner loop over counters. The three methods keep the source's order of reads and checks.
- The `CounterResult` and `ScenarioResult` constructors are datatype constructors. They store each field unchanged by construction, so they have no contract of their own.
- The perf harness's process, file and network I/O: running Robocopy (a parameter here), uploading traces, converting results to CSV or JSON, the runner and the trace manager.
