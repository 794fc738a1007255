# xmd compiler and evaluation server, modelled in Dafny

This project models the core of a markdown compiler and of the Python server it uses to evaluate code chunks.

The compiler, xmd, parses an extended markdown into a flat document tree. It rewrites that tree, then generates one of several outputs from it: a Tufte page in HTML, a reveal.js slide deck, a LaTeX Tufte handout or a LaTeX article. Code chunks marked for evaluation are sent to a session on the Python server. Their results appear in the output.

The model covers:

- **Session table** (`Session`): the Python server's dictionary from session id to the globals of the session. It supports create, look up, delete, and evaluate-on-session. The table operations state exactly what changes and that nothing else does.
- **Tree transformers**:
  - `ConditionalTransformer`: hides sections guarded by an undefined flag.
  - `EnvironTransformer`: folds theorem environments.
  - `SlidesTransformer`: splits a flow into slides on horizontal rules.
  - `TexDocTransformer`: strips the title and author sections of a LaTeX article.

  Each is a function over the node list, with the loops of the source as methods proved against it.
- **Extensions and directives**:
  - `Extensions`, `ExtensionsOld`: the `name=value,...` clause parser, where the last clause wins, and its inverse.
  - `Directives`: the abbreviation table.
- **Resource image**:
  - `ResourceImages`: the append-only component list, with its virtual path rules and its JSON payload.
  - `IdGen`: the counter-based id generator.
  - `ExternalResources`: the minting of image paths.
- **Semantic helpers**:
  - `AuthorHelper`, `AbstractHelper`: extract the author and the abstract.
  - `ReferenceScanner`, `ReferenceScannerOld`: collect the imported documents and images.
  - `Ast`: the shared searches.
- **Generators**:
  - `DirectFlowGenerator`: the directly flowing generator, with its dialects.
  - The generators of each template, and the older generators.
  - `FunctionalGenerator`, `FunctionalGeneratorJs`: the first functional generator and its JavaScript twin.
  - `CodeEvaluation`: the conversion of evaluation results.
- **Renderers and templates**: string builders for HTML, slides and LaTeX, and the stylist of LaTeX code blocks. Each states its rules:
  - the heading-level ranges and their errors;
  - result blocks only for a truthy result;
  - exactly one reference id per figure that needs one;
  - imported renderers returning their content unchanged.

The renderer, the code evaluator and the directives controller are modelled as functions over an abstract world state that the generator threads through its calls. A call can also throw, which ends generation with the message thrown. Evaluating Python code is a parameter of the session table.

## Model

| member | source | states |
|---|---|---|
| Session.SessionsManager.constructor | pysrv/pysrv/session.py:5-6 | a new manager holds no sessions |
| Session.SessionsManager.GetSession | pysrv/pysrv/session.py:9-15 | the stored record exactly when the id is known, nothing otherwise; the table is not changed |
| Session.SessionsManager.NewSession | pysrv/pysrv/session.py:18-21 | the given id now maps to empty globals, overwriting any session under it, and is returned; no other entry changes |
| Session.SessionsManager.DeleteSession | pysrv/pysrv/session.py:24-29 | an unknown id gives "" and changes nothing; a known id is returned and exactly its entry is removed |
| Session.SessionsManager.EvalOnSession | pysrv/pysrv/session.py:33-40 | an unknown id gives the not-found error value and changes nothing; a known id runs the source on that session's globals in place and returns them, or, when the code raises, propagates the exception and keeps the globals as far as the code updated them; other sessions are untouched |
| ConditionalTransformer.RegisterDefs | xmdparser/src/generic/ast_conditional_content_transformer.ts:28-31 | a root directive only adds definitions; one `def` clause with a value registers that value |
| ConditionalTransformer.Step | xmdparser/src/generic/ast_conditional_content_transformer.ts:27-68 | root directives are always kept; outside a hidden section other nodes are kept; inside one, deeper headings and non-headings are dropped; a heading at or above the hidden level ends it and is dropped, opening a section at its own level, exactly when its `if` names an unregistered definition |
| ConditionalTransformer.Transform | xmdparser/src/generic/ast_conditional_content_transformer.ts:20-75 | the loop's result: a `start` root holding the nodes the steps keep |
| ConditionalTransformer.RunIsSubsequence | xmdparser/src/generic/ast_conditional_content_transformer.ts:24-69 | the output is an order-preserving subsequence of the input |
| ConditionalTransformer.RootDirectivesKept | xmdparser/src/generic/ast_conditional_content_transformer.ts:28-31 | the output has as many root directives as the input |
| ConditionalTransformer.LevelIsZeroOrAHeadingLevel | xmdparser/src/generic/ast_conditional_content_transformer.ts:36-57 | the hidden level is 0 or the level of a heading of the input |
| ConditionalTransformer.EmptyInput | xmdparser/src/generic/ast_conditional_content_transformer.ts:71-74 | an empty flow gives an empty flow |
| ConditionalTransformer.IfDefOfGuard | xmdparser/src/generic/ast_conditional_content_transformer.ts:49-51 | the guard read back through the stringifier and parser is the named definition ("true" for an empty name) |
| ConditionalTransformer.OneHiddenSection | xmdparser/src/generic/ast_conditional_content_transformer.test.ts:22-37 | a section guarded by an undefined flag is hidden: the test's 4 nodes give 2, whatever their texts |
| ConditionalTransformer.SectionHidden | xmdparser/src/generic/ast_conditional_content_transformer.ts:36-57 | a heading whose guard fails starts a hidden section at its level that swallows the next paragraph; the nodes before it are kept |
| ConditionalTransformer.OneGuardedSectionShown | xmdparser/src/generic/ast_conditional_content_transformer.test.ts:40-57 | a section guarded by a flag a `def` directive defined is kept: the test's 5 nodes give 5, whatever their texts |
| ConditionalTransformer.GuardedSectionKept | xmdparser/src/generic/ast_conditional_content_transformer.ts:27-68 | after a `def` directive, a heading guarded by the defined flag and everything around it is kept, the directive included |
| ConditionalTransformer.AlternatingHiddenSections | xmdparser/src/generic/ast_conditional_content_transformer.test.ts:60-77 | an unguarded heading at the same level ends the hidden section: the test's 6 nodes give 4, whatever their texts |
| ConditionalTransformer.HiddenSectionEnds | xmdparser/src/generic/ast_conditional_content_transformer.ts:36-57 | the hidden section ends at the next unguarded heading of its level, which is kept with what follows it |
| EnvironTransformer.HandleTheorem | xmdparser/src/generic/ast_environ_transformer.ts:102-118 | a theorem consumes 3 nodes; its title is the heading text, its statement and proof the element values of the two paragraphs |
| EnvironTransformer.NextComponent | xmdparser/src/generic/ast_environ_transformer.ts:31-48 | the loop body advances by at least 1 and emits the first node of the fold of the rest |
| EnvironTransformer.Transform | xmdparser/src/generic/ast_environ_transformer.ts:27-55 | the loop's result is the `start` root of the fold of the flow |
| EnvironTransformer.FoldStep | xmdparser/src/generic/ast_environ_transformer.ts:74-99 | at a theorem environment (level-1 heading with a truthy `theorem` clause, then two paragraphs) the fold emits the theorem and skips 3; otherwise it copies the node (with lines 34-48) |
| EnvironTransformer.FoldLength | xmdparser/src/generic/ast_environ_transformer.ts:30-49 | the output is the input minus twice the number of theorems |
| EnvironTransformer.FoldWithoutTheoremsIsIdentity | xmdparser/src/generic/ast_environ_transformer.ts:47-48 | a flow with no theorem heading is copied unchanged |
| EnvironTransformer.FoldOfAppend | xmdparser/src/generic/ast_environ_transformer.ts:47-48 | nodes outside environments are copied unchanged, in order |
| EnvironTransformer.EmptyInput | xmdparser/src/generic/ast_environ_transformer.ts:51-54 | an empty flow folds to an empty flow |
| SlidesTransformer.SplitSlides | xmdparser/src/templates/html_slides/ast_transformer_html_slides.ts:11-23 | the split always has a first slide, so an empty flow gives one empty slide |
| SlidesTransformer.SplitSlidesLayout | xmdparser/src/templates/html_slides/ast_transformer_html_slides.ts:11-23 | one slide per horizontal rule plus one; no slide holds a rule; the slides hold, in order, exactly the nodes that are not rules |
| SlidesTransformer.SlideNodes | xmdparser/src/templates/html_slides/ast_transformer_html_slides.ts:11-28 | one `slide` node per slide content, in order |
| SlidesTransformer.Transform | xmdparser/src/templates/html_slides/ast_transformer_html_slides.ts:10-29 | the `start` root of the slide nodes of the split; one slide more than there are rules; no slide holds a rule; the slides end to end are the flow without its rules |
| TexDocTransformer.RemoveTitleNode | packages/xmdparser/src/templates/tex_doc/ast_transformer_tex_doc.ts:14-53 | the first node is dropped exactly when it is a level-1 heading; an empty flow fails reading its first node |
| TexDocTransformer.AuthorCut | packages/xmdparser/src/templates/tex_doc/ast_transformer_tex_doc.ts:34-37 | the cut is past the author heading, and past the paragraph that follows it if any |
| TexDocTransformer.RemoveAuthorNodes | packages/xmdparser/src/templates/tex_doc/ast_transformer_tex_doc.ts:27-59 | with no author heading the flow is unchanged; otherwise it is the suffix from the cut after the first author heading |
| TexDocTransformer.RemoveAuthorIsSuffix | packages/xmdparser/src/templates/tex_doc/ast_transformer_tex_doc.ts:28-46 | the author step always keeps a suffix of the flow |
| TexDocTransformer.RemoveAuthorDropsFirstAuthorHeading | packages/xmdparser/src/templates/tex_doc/ast_transformer_tex_doc.ts:33-37 | with an author heading at i the result is shorter and drops at most i+2 nodes |
| TexDocTransformer.Transform | packages/xmdparser/src/templates/tex_doc/ast_transformer_tex_doc.ts:7-12 | title removal, then author removal, tagged `start`; fails exactly when title removal does |
| TexDocTransformer.TransformSpec | packages/xmdparser/src/templates/tex_doc/ast_transformer_tex_doc.ts:7-25 | fails exactly on an empty flow; otherwise a `start` root no longer than the input |
| Extensions.ClauseTableLastWins | xmdparser/src/extensions/extensions.ts:51-59 | the clause dictionary holds, for every key, the value of the last clause with that key |
| Extensions.Parse | xmdparser/src/extensions/extensions.ts:45-71 | the loop fills the dictionary as the clause table does and reports the five attributes; nothing is ever unknown |
| Extensions.ParseReportsLastClause | xmdparser/src/extensions/extensions.ts:49-70 | each reported attribute is the value of the last trimmed clause naming it, or absent |
| Extensions.BareClauseIsTrue | xmdparser/src/extensions/extensions.ts:52-56 | a clause without "=" maps its trimmed text to "true" |
| Extensions.AssignmentClause | xmdparser/src/extensions/extensions.ts:57-58 | `name=value` maps the name to the value, and text after a second "=" is lost |
| Extensions.ClauseStrings | xmdparser/src/extensions/extensions.ts:84 | one `name=value` string per clause, in order |
| Extensions.Stringify | xmdparser/src/extensions/extensions.ts:82-86 | "" exactly when there are no clauses |
| Extensions.ClauseStringEntry | xmdparser/src/extensions/extensions.ts:57-84 | a plain clause printed and parsed back gives its name and its value, or "true" |
| Extensions.EntriesOfStringified | xmdparser/src/extensions/extensions.ts:49-86 | the last entry for a key in the printed clauses is the last clause with that name |
| Extensions.ParseStringifyRoundTrip | xmdparser/src/extensions/extensions.ts:45-86 | for clauses without "," "=" or edge spaces, parsing the printed clauses reports each known name's last value, or "true" |
| ExtensionsOld.Parse | xmdparser/src/extensions.ts:17-39 | the loop builds the clause dictionary of the trimmed "," clauses and reports only `fullwidth`; nothing is ever unknown |
| ExtensionsOld.AgreesWithNewerParser | xmdparser/src/extensions.ts:21-47 | the reported `fullwidth` is the value of the last clause naming it, the same as the newer parser reports |
| Directives.FirstColonFrom | xmdparser/src/directives.ts:69-70 | the first ':' at or after the start, with no ':' before it |
| Directives.LineRun | xmdparser/src/directives.ts:69-70 | the longest prefix without line terminators, which is what `(.+)` takes |
| Directives.MatchGroupsNonEmpty | xmdparser/src/directives.ts:69-79 | a match of `([^:]+):(.+)` gives a non-empty name without ':' and a non-empty one-line value |
| Directives.DefinitionRoundTrip | xmdparser/src/directives.ts:69-76 | "name:value" with a colon-free name and a one-line value matches back to exactly that name and value |
| Directives.DirectivesController.constructor | xmdparser/src/directives.ts:16-18 | a new controller has no abbreviations |
| Directives.DirectivesController.ProcessDirective | xmdparser/src/directives.ts:26-46 | not exactly one clause, or a name other than the abbreviation directive, is an error that changes nothing; inline it looks up, otherwise it defines and returns nothing (with lines 86-88) |
| Directives.DirectivesController.RetrieveAbbreviationValue | xmdparser/src/directives.ts:48-60 | the lookup `RetrieveSpec` states, on the current table |
| Directives.DirectivesController.HandleAbbreviationDefinition | xmdparser/src/directives.ts:62-84 | a failed definition changes nothing; a good one overwrites exactly its name |
| Directives.RetrieveSpec | xmdparser/src/directives.ts:48-60 | an absent or empty reference is an error; otherwise a value exactly when the name is defined, and then its stored value |
| Directives.DefineSpec | xmdparser/src/directives.ts:62-80 | an absent or empty text is an error; a success is the regular-expression match, with a non-empty colon-free name and a non-empty value |
| Directives.DefineThenRetrieve | xmdparser/src/directives.ts:48-83 | defining "name:value" and then expanding "name" gives the value back |
| ResourceImages.FindComponent | xmdparser/src/resource_image.ts:100-102 | the first component whose virtual path is exactly the one asked for, and none exactly when no component has it |
| ResourceImages.ResourceImage.constructor | xmdparser/src/resource_image.ts:25-29 | a new image keeps its name and has no components (with lines 86-88) |
| ResourceImages.ResourceImage.AddString | xmdparser/src/resource_image.ts:61-66 | exactly one component is appended, with the given virtual path and the encoded value, without a duplicate check |
| ResourceImages.Encode | xmdparser/src/resource_image.ts:64 | base64 encoding leaves a stream unchanged exactly when it is empty, and otherwise gives the encoding of that stream |
| ResourceImages.ResourceImage.AddFromImage | xmdparser/src/resource_image.ts:74-83 | a missing source or an existing destination is an error that changes nothing; otherwise one copy of the source renamed to the destination is appended |
| ResourceImages.ResourceImage.AddFromFileSystem | xmdparser/src/resource_image.ts:36-54 | a virtual path already present ignoring case is rejected first, then a missing file; otherwise the entries read are appended |
| ResourceImages.ResourceImage.CheckVPathAlreadyExists | xmdparser/src/resource_image.ts:130-132 | true exactly when some component's virtual path equals it ignoring case |
| ResourceImages.EnsureVPathSyntax | xmdparser/src/resource_image.ts:185-190 | the result starts with "/": the path itself when it already did, "/" + the path otherwise |
| ResourceImages.EnsureVPathSyntaxIdempotent | xmdparser/src/resource_image.ts:185-190 | normalising twice is normalising once |
| ResourceImages.EnsuredVPathIsValid | xmdparser/src/resource_image.ts:167-190 | a non-empty path without a leading "/" becomes a path `checkVPath` accepts |
| ResourceImages.SerializeToJsonPayload | xmdparser/src/resource_image.ts:197-208 | the payload holds the image's name and a copy of its components, in order |
| ResourceImages.Reencoded | xmdparser/src/resource_image.ts:218-220 | one component per file, with the file's virtual path and its stream encoded once more |
| ResourceImages.DeserializeFromJsonPayload | xmdparser/src/resource_image.ts:215-223 | a new image named `deserialized_` + the name (or "untitled") whose components are the re-encoded files |
| ResourceImages.ReencodedAppend | xmdparser/src/resource_image.ts:218-220 | re-encoding one more file appends one more component |
| ResourceImages.PayloadRoundTrip | xmdparser/src/resource_image.ts:197-223 | serialising and deserialising keeps every virtual path and encodes every stream once more: a stream comes back unchanged exactly when it is empty, so an image comes back equal exactly when all its streams are empty |
| IdGen.IdGenerator.constructor | xmdparser/src/utils.ts:15-16 | a new generator has its prefix and has yielded nothing |
| IdGen.IdGenerator.Next | xmdparser/src/utils.ts:16-22 | the k-th call gives the k-th value: prefix + k below the limit, prefix + "-end" at it, nothing after |
| IdGen.IdsAreDistinct | xmdparser/src/utils.ts:18-22 | two different calls up to the limit both give a value, and the values differ |
| ExternalResources.ExternalResourceManager.constructor | xmdparser/src/templates/external_res_manager.ts:16-30 | a manager holds its two images and a fresh generator with prefix "imm" |
| ExternalResources.ExternalResourceManager.Create | xmdparser/src/templates/external_res_manager.ts:22-27 | a missing input image, then a missing output image, is an error |
| ExternalResources.ExternalResourceManager.ServeImage | xmdparser/src/templates/external_res_manager.ts:37-50 | corrected half of the Findings row on lines 44-47: a disallowed extension is an error and uses no id; otherwise one id is used and the image is copied to "__res/images/imm" + k + extension, which is returned |
| ExternalResources.AsWrittenServeAlwaysThrows | xmdparser/src/templates/external_res_manager.ts:44-47 | with the generated path passed as the source, an input image of "/"-rooted paths never holds it, so every allowed call throws "Cannot find component" |
| ExternalResources.DigitPrefixLength | xmdparser/src/utils.ts:19 | the length of the leading run of digits, at most the whole text |
| ExternalResources.DigitPrefixOfRun | xmdparser/src/utils.ts:19 | digits followed by a non-digit have exactly those digits as their leading run |
| ExternalResources.DigitRunsAgree | xmdparser/src/utils.ts:19 | equal texts built from a prefix, a digit run and a text starting with a non-digit have equal digit runs |
| ExternalResources.ServedPathParts | xmdparser/src/templates/external_res_manager.ts:29-45 | the served path has no leading "/" and is "__res/images/imm" + k + extension, or "-end" at the limit |
| ExternalResources.ServedPathsDistinctFor | xmdparser/src/templates/external_res_manager.ts:44-45 | two different counts give different paths for any extensions starting with "." |
| ExternalResources.ServedPathsAreDistinct | xmdparser/src/templates/external_res_manager.ts:38-45 | successive calls serve different paths, whatever the allowed extensions |
| AuthorHelper.AuthorIsParagraphAfterHeading | packages/xmdparser/src/helpers/author_helper.ts:10-32 | with the title at t, the first author heading from there at h and the first paragraph after it at q, the author is that paragraph's element values joined with "" |
| AuthorHelper.NoParagraphAfterAuthorHeading | packages/xmdparser/src/helpers/author_helper.ts:24-28 | no paragraph after the author heading gives "" |
| AuthorHelper.NoTitleNoAuthor | packages/xmdparser/src/helpers/author_helper.ts:10-13 | no level-1 heading gives "" |
| AuthorHelper.NoAuthorHeading | packages/xmdparser/src/helpers/author_helper.ts:15-22 | no heading of level at most 2 reading "author" from the title on gives "" |
| AuthorHelper.AuthorKeywordIsNormal | packages/xmdparser/src/helpers/author_helper.ts:19 | the keyword is unchanged by lower-casing and trimming, so it can match |
| AuthorHelper.AuthorKeywordHeading | packages/xmdparser/src/helpers/author_helper.ts:16-19 | a level-2 heading reading the keyword is an author heading |
| AuthorHelper.AsWrittenReadsParagraphBeforeTitle | packages/xmdparser/src/helpers/author_helper.ts:15-25 | with the heading index taken relative to the title but used on the whole list, a paragraph before the title is returned instead of the one after the author heading |
| AuthorHelper.AsWrittenAgreesWhenTitleFirst | packages/xmdparser/src/helpers/author_helper.ts:15-24 | when the title is the first node the two indices coincide and the helper as written is right |
| AuthorHelper.AuthorAsWrittenIsParagraphFromOffset | packages/xmdparser/src/helpers/author_helper.ts:15-25 | as written, the author is the text of the first paragraph at or after the author heading's offset from the title |
| AbstractHelper.AbstractIsParagraphAfterHeading | xmdparser/src/helpers/abstract_helper.ts:10-31 | with the title at t, the first abstract heading from there at h and the first paragraph after it at q, the abstract is that paragraph's element values, one per element, in order |
| AbstractHelper.NoParagraphAfterAbstractHeading | xmdparser/src/helpers/abstract_helper.ts:24-28 | no paragraph after the abstract heading gives [] |
| AbstractHelper.NoTitleNoAbstract | xmdparser/src/helpers/abstract_helper.ts:10-13 | no level-1 heading gives [] |
| AbstractHelper.NoAbstractHeading | xmdparser/src/helpers/abstract_helper.ts:15-22 | no heading of level at most 2 reading "abstract" from the title on gives [] |
| AbstractHelper.AbstractKeywordHeading | xmdparser/src/helpers/abstract_helper.ts:16-19 | a level-2 heading reading the keyword is an abstract heading |
| AbstractHelper.AsWrittenReadsParagraphBeforeTitle | xmdparser/src/helpers/abstract_helper.ts:15-25 | the relative index used on the whole list returns a paragraph before the title instead of the one after the abstract heading |
| AbstractHelper.AsWrittenAgreesWhenTitleFirst | xmdparser/src/helpers/abstract_helper.ts:15-24 | when the title is the first node the helper as written is right |
| Ast.FindIndex | packages/xmdparser/src/helpers/author_helper.ts:10-19 | the first index whose node satisfies the test, and none exactly when no node does |
| Ast.FindIndexFrom | packages/xmdparser/src/helpers/author_helper.ts:15-19 | searching a slice from `from` finds the first match at or after `from`, counted from `from` |
| Ast.ParagraphFrom | packages/xmdparser/src/helpers/author_helper.ts:24-25 | the first paragraph at or after a position, and always a paragraph |
| Ast.SectionParagraphAt | packages/xmdparser/src/helpers/author_helper.ts:10-25 | the corrected search returns the first paragraph after the first section heading from the title on |
| Ast.SectionAsWrittenAt | packages/xmdparser/src/helpers/author_helper.ts:15-25 | as written, the section paragraph is the first paragraph at or after the section heading's offset from the title, wherever that lies |
| Ast.SectionAsWrittenReadsBeforeTitle | packages/xmdparser/src/helpers/author_helper.ts:15-25 | on a five-node flow with the title third, the search as written returns the paragraph before the title and the corrected one the paragraph after the section heading |
| Ast.SectionAsWrittenAgreesWhenTitleFirst | packages/xmdparser/src/helpers/author_helper.ts:15-24 | with the title first, both searches agree |
| ReferenceScanner.ImportReferences | packages/xmdparser/src/reference_scanner.ts:31-53 | one `md` reference per import directive, in order, named after the directive and with its value normalised; a missing value makes `toVPath` throw |
| ReferenceScanner.ImageReferences | packages/xmdparser/src/reference_scanner.ts:38-46 | one `image` reference per image node, in order, named by its title, with its path normalised |
| ReferenceScanner.ToVPathIdempotent | packages/xmdparser/src/reference_scanner.ts:48-53 | normalising twice is normalising once |
| ReferenceScanner.ToVPathShape | packages/xmdparser/src/reference_scanner.ts:48-53 | at most one "/" is added in front; the result starts with "/" exactly when the path did or is longer than one character |
| ReferenceScanner.ScanLayout | packages/xmdparser/src/reference_scanner.ts:18-46 | as many references as import directives plus images, the imports first, then the images with their normalised paths |
| ReferenceScanner.ScanFailure | packages/xmdparser/src/reference_scanner.ts:29-33 | the scan fails exactly on a directive without clauses or an import directive without a value |
| ReferenceScannerOld.ImportReferences | xmdparser/src/reference_scanner.ts:27-35 | one `md` reference per import directive, with the raw clause value |
| ReferenceScannerOld.ImageReferences | xmdparser/src/reference_scanner.ts:37-45 | one `image` reference per image node, with the raw path |
| ReferenceScannerOld.Scan | xmdparser/src/reference_scanner.ts:18-29 | fails exactly on a directive without clauses |
| ReferenceScannerOld.ScanLayout | xmdparser/src/reference_scanner.ts:18-45 | as many references as import directives plus images, imports first with raw values, then images with raw paths |
| ReferenceScannerOld.NewerScannerNormalises | xmdparser/src/reference_scanner.ts:18-45 | where the newer scanner succeeds the older lists the same references, and the newer path is the older one normalised |
| CodeEvaluation.DecimalRun | xmdparser/src/templates/direct_flow_generator.ts:288 | the longest prefix of decimal digits, the digits `parseInt` reads |
| CodeEvaluation.HexRun | xmdparser/src/templates/direct_flow_generator.ts:288 | the longest prefix of hexadecimal digits, the digits `parseInt` reads after "0x" |
| CodeEvaluation.DecimalRunOf | xmdparser/src/templates/direct_flow_generator.ts:288 | digits followed by a non-digit read as exactly those digits |
| CodeEvaluation.ConvertResult | xmdparser/src/templates/direct_flow_generator.ts:283-293 | a "str" result is its value unchanged; a type other than "str" and "int" is reported as unknown |
| CodeEvaluation.ParseUnsignedOfPrinted | xmdparser/src/templates/direct_flow_generator.ts:288 | a printed natural followed by text that cannot continue it reads back as that number, signed as asked |
| CodeEvaluation.ParseIntOfPrinted | xmdparser/src/templates/direct_flow_generator.ts:288 | any printed integer followed by text that cannot continue it reads back as that integer |
| CodeEvaluation.ConvertPrintedInt | xmdparser/src/templates/direct_flow_generator.ts:287-289 | an "int" result whose value is a printed integer converts to that integer's text |
| CodeEvaluation.ParseIntWithoutDigits | xmdparser/src/templates/direct_flow_generator.ts:288 | text that starts with neither a sign, a blank nor a digit converts to "NaN" |
| DirectFlowGenerator.ExtractSemanticInfo | xmdparser/src/templates/direct_flow_generator.ts:150-159 | the information holds the title alone |
| DirectFlowGenerator.TitleIsFirstLevelOneHeading | xmdparser/src/templates/direct_flow_generator.ts:153-154 | the title is the text of the first level-1 heading when that text is non-empty |
| DirectFlowGenerator.UntitledWithoutTitleHeading | xmdparser/src/templates/direct_flow_generator.ts:153-154 | without a level-1 heading the title is "Untitled" |
| DirectFlowGenerator.EmptyTitleHeadingIsUntitled | xmdparser/src/templates/direct_flow_generator.ts:153-154 | an empty first level-1 heading gives "Untitled", whatever later headings say |
| DirectFlowGenerator.TransformConditional | xmdparser/src/templates/direct_flow_generator.ts:140-143 | the transformed tree is a `start` root holding what the conditional-content transformer keeps |
| DirectFlowGenerator.DirectFlowGenerator.constructor | xmdparser/src/templates/direct_flow_generator.ts:27-35 | a new generator has its renderer, evaluator and dialect, no controller and no document information |
| DirectFlowGenerator.DirectFlowGenerator.Call | xmdparser/src/templates/direct_flow_generator.ts:187 | one renderer call, with the world it leaves (with lines 243, 256, 261, 265) |
| DirectFlowGenerator.DirectFlowGenerator.GenerateAndEvalCodeComponent | xmdparser/src/templates/direct_flow_generator.ts:273-306 | a chunk is evaluated only when it is to be run, and its result converted; running it without an evaluator throws |
| DirectFlowGenerator.DirectFlowGenerator.DirectivesController | xmdparser/src/templates/direct_flow_generator.ts:176-182 | the controller is created on first use only, and the base generator throws "Not implemented" (with lines 88-90) |
| DirectFlowGenerator.DirectFlowGenerator.ProcessDirective | xmdparser/src/templates/direct_flow_generator.ts:190-202 | a root directive renders its value or ""; an inline one must give a string |
| DirectFlowGenerator.DirectFlowGenerator.GenerateElement | xmdparser/src/templates/direct_flow_generator.ts:207-238 | one paragraph element by its type; an unknown type throws |
| DirectFlowGenerator.DirectFlowGenerator.GenerateParagraph | xmdparser/src/templates/direct_flow_generator.ts:204-244 | the loop renders the elements in order and hands their concatenation to the paragraph writer |
| DirectFlowGenerator.DirectFlowGenerator.GenerateCodeblock | xmdparser/src/templates/direct_flow_generator.ts:246-253 | the chunk is evaluated first; a hidden codeblock renders "", any other goes to the codeblock writer with its result and output format |
| DirectFlowGenerator.DirectFlowGenerator.HandleAstComponentNodeRendering | xmdparser/src/templates/direct_flow_generator.ts:97-116 | one component node by its type; an unknown type throws |
| DirectFlowGenerator.DirectFlowGenerator.GenerateFlow | xmdparser/src/templates/direct_flow_generator.ts:64-82 | the loop renders the components in order, each in the state the previous one left, and concatenates them |
| DirectFlowGenerator.DirectFlowGenerator.GenerateStart | xmdparser/src/templates/direct_flow_generator.ts:166-174 | the flow, then the language of the controller, then the root writer with the document information |
| DirectFlowGenerator.DirectFlowGenerator.Generate | xmdparser/src/templates/direct_flow_generator.ts:42-57 | a malformed tree is rejected; otherwise the information of the original tree, the transformed tree rendered, and the output written |
| DirectFlowGenerator.FlowAppend | xmdparser/src/templates/direct_flow_generator.ts:64-82 | rendering two flows one after the other is rendering their concatenation; an error in the first stops the whole |
| DirectFlowGenerator.ElementsPrefixThrows | xmdparser/src/templates/direct_flow_generator.ts:204-236 | once a prefix of the elements throws, the paragraph throws the same |
| DirectFlowGenerator.FlowPrefixThrows | xmdparser/src/templates/direct_flow_generator.ts:64-82 | once a prefix of the flow throws, the flow throws the same |
| DirectFlowGenerator.FlowSingle | xmdparser/src/templates/direct_flow_generator.ts:64-82 | a flow of one node renders as that node |
| DirectFlowGenerator.FlowCons | xmdparser/src/templates/direct_flow_generator.ts:64-82 | a flow renders as its first node followed by the rest, rendered in the state the first left |
| DirectFlowGenerator.ControllerOnce | xmdparser/src/templates/direct_flow_generator.ts:176-182 | the getter creates a controller at most once and leaves an existing one alone |
| DirectFlowGenerator.ElementControllers | xmdparser/src/templates/direct_flow_generator.ts:195-238 | an element creates at most one controller, and only an inline directive may create one |
| DirectFlowGenerator.ElementsControllers | xmdparser/src/templates/direct_flow_generator.ts:204-244 | a paragraph creates at most one controller, and none without inline directives |
| DirectFlowGenerator.NodeControllers | xmdparser/src/templates/direct_flow_generator.ts:97-116 | a node creates at most one controller, and none without directives (with lines 190-193) |
| DirectFlowGenerator.ControllerCreatedOnce | xmdparser/src/templates/direct_flow_generator.ts:64-82 | a whole flow creates at most one controller, and none without directives (with lines 176-182) |
| DirectFlowGenerator.HiddenCodeblockIsEvaluated | xmdparser/src/templates/direct_flow_generator.ts:246-253 | a hidden codeblock renders "" but its chunk is still evaluated, with the same effect and the same errors |
| DirectFlowGenerator.RunWithoutEvaluatorThrows | xmdparser/src/templates/direct_flow_generator.ts:279-303 | a chunk to be run with no evaluator throws, in a codeblock and inline |
| DirectFlowGenerator.NotRunIsNotEvaluated | xmdparser/src/templates/direct_flow_generator.ts:268-279 | a chunk not to be run reaches the writer with no result and an unchanged world |
| DirectFlowGenerator.UnrecognizedNodeThrows | xmdparser/src/templates/direct_flow_generator.ts:113-115 | a node of an unknown type, after nodes that render, ends the flow with "Unrecognized node type" |
| DirectFlowGenerator.UnrecognizedElementThrows | xmdparser/src/templates/direct_flow_generator.ts:234-235 | an element of an unknown type, after elements that render, ends the paragraph with "Unrecognized par type" |
| DirectFlowGenerator.MalformedAstIsRejected | xmdparser/src/templates/direct_flow_generator.ts:123-133 | a root not tagged `start`, or with an empty flow, gives "Malformed AST" before anything is rendered (with lines 43-45) |
| DirectFlowGenerator.BaseTemplateCannotFinish | xmdparser/src/templates/direct_flow_generator.ts:166-174 | the base generator never finishes: the first directive or the language read throws (with lines 88-90) |
| DirectFlowGeneratorOld.AsWrittenNeverGenerates | xmdparser/src/direct_flow_generator.ts:136-153 | with no controller ever created, `generate` always throws, and once the flow renders the error is the read of `lang` on `undefined` (with lines 34-43, 80-82) |
| DirectFlowGeneratorOld.CorrectedAgreesBeforeLanguage | xmdparser/src/direct_flow_generator.ts:144-153 | with the language read as absent, the generator fails exactly where the one as written fails first, and otherwise writes the root with the flow and its title (with lines 34-43) |
| DirectFlowGeneratorOld.OlderClassNeverGenerates | xmdparser/src/direct_flow_generator.ts:34-82 | the directly flowing generator class run in the older dialect throws the same error as `generate` as written |
| LegacyGenerator.ElementsPrefixThrows | xmdparser/src/generator.ts:87-127 | once a prefix of the elements throws, the paragraph throws the same |
| LegacyGenerator.FlowPrefixThrows | xmdparser/src/generator.ts:42-79 | once a prefix of the flow throws, the flow throws the same |
| LegacyGenerator.ElementsRendered | xmdparser/src/generator.ts:87-127 | a rendered paragraph holds only supported elements, each rendered to at least one character |
| LegacyGenerator.FlowRendered | xmdparser/src/generator.ts:42-79 | a rendered flow holds only headings, paragraphs, codeblocks, equation blocks and images, each rendered to at least one character |
| LegacyGenerator.GenerateOutcome | xmdparser/src/generator.ts:19-29 | a missing or non-`start` tree and an empty flow are rejected with their messages; a rendered flow goes to the root writer with the title of the tree (with lines 31-40, 179-189) |
| LegacyGenerator.ElementAgrees | xmdparser/src/generator.ts:87-127 | an element the old generator renders is rendered the same by the older directly flowing generator |
| LegacyGenerator.ElementsAgree | xmdparser/src/generator.ts:87-127 | a paragraph's elements rendered by the old generator are rendered the same by the older directly flowing generator |
| LegacyGenerator.NodeAgrees | xmdparser/src/tex_tufte/generator_tex_tufte.ts:61-98 | a node other than an image that the old LaTeX generator renders is rendered the same by the older directly flowing generator |
| LegacyGenerator.FlowAgrees | xmdparser/src/tex_tufte/generator_tex_tufte.ts:61-98 | every flow without images that the old LaTeX generator renders is rendered the same by the older directly flowing generator |
| LegacyGenerator.ImageValuesKeepFullwidth | xmdparser/src/tex_tufte/generator_tex_tufte.ts:157-164 | the old LaTeX generator hands the image writer the older parser's values: the newer parser's `fullwidth`, and no other attribute |
| LegacyGenerator.LegacyGenerator.constructor | xmdparser/src/generator.ts:9-13 | a new generator has its kind, collaborators and world |
| LegacyGenerator.LegacyGenerator.Call | xmdparser/src/generator.ts:129-140 | one renderer call, with the world it leaves (with lines 81-85) |
| LegacyGenerator.LegacyGenerator.GenerateCodeComponent | xmdparser/src/generator.ts:147-177 | a chunk is evaluated only when it is to be run, and its result converted |
| LegacyGenerator.LegacyGenerator.GenerateElement | xmdparser/src/generator.ts:91-116 | one element by its type; an unknown type throws and an empty output throws "did not render" |
| LegacyGenerator.LegacyGenerator.GenerateParagraph | xmdparser/src/generator.ts:87-127 | the loop renders the elements in order and hands their concatenation to the paragraph writer |
| LegacyGenerator.LegacyGenerator.GenerateNode | xmdparser/src/generator.ts:49-71 | one node by its type; other types throw and an empty output throws "Component did not render" |
| LegacyGenerator.LegacyGenerator.GenerateStart | xmdparser/src/generator.ts:42-79 | the loop renders the flow in order, then the root writer gets it with the title |
| LegacyGenerator.LegacyGenerator.Generate | xmdparser/src/generator.ts:19-29 | the check, then the flow and root writer of the tree |
| HtmlSlidesGenerator.SlidesFlowPrefixThrows | xmdparser/src/templates/html_slides/generator_html_slides.ts:70-93 | once a prefix of the slides throws, the deck throws the same |
| HtmlSlidesGenerator.ExtractSemanticInfoAsWritten | xmdparser/src/templates/html_slides/generator_html_slides.ts:55-67 | the search throws reading `v` exactly when no slide has a level-1 heading |
| HtmlSlidesGenerator.ExtractAsWrittenAgrees | xmdparser/src/templates/html_slides/generator_html_slides.ts:55-67 | where the search as written succeeds it gives the corrected information; where it throws the corrected title is "Untitled" |
| HtmlSlidesGenerator.FindIndexAfter | xmdparser/src/templates/html_slides/generator_html_slides.ts:58-60 | a search past a prefix without matches finds the match of the rest, shifted by the prefix |
| HtmlSlidesGenerator.FirstTitleIsFlowTitle | xmdparser/src/templates/html_slides/generator_html_slides.ts:58-62 | the first titled slide's first level-1 heading is the first level-1 heading of the slides put end to end |
| HtmlSlidesGenerator.SlidesTitleIsFlowTitle | xmdparser/src/templates/html_slides/generator_html_slides.ts:48-67 | the title of the split deck is the title the base generators give the flow without its rules |
| HtmlSlidesGenerator.SlidesRenderSlide | xmdparser/src/templates/html_slides/generator_html_slides.ts:103-107 | with the slides renderer a slide is its content in a `section` |
| HtmlSlidesGenerator.SlidesRenderRoot | xmdparser/src/templates/html_slides/generator_html_slides.ts:92 | the root writer throws reading `language` without document information, and otherwise writes the page |
| HtmlSlidesGenerator.SlideIsSection | xmdparser/src/templates/html_slides/generator_html_slides.ts:83-107 | a slide whose flow renders is that flow in a `section`, so it never fails the non-empty check |
| HtmlSlidesGenerator.AsWrittenNeverGenerates | xmdparser/src/templates/html_slides/generator_html_slides.ts:39-92 | the information is never set, so every tree fails, and a deck whose slides render fails reading `language` |
| HtmlSlidesGenerator.CorrectedGenerates | xmdparser/src/templates/html_slides/generator_html_slides.ts:39-93 | with the information set from the transformed tree, a well-formed deck whose slides render gives the page around them, titled from the flow |
| HtmlSlidesGenerator.GenerateSlides | xmdparser/src/templates/html_slides/generator_html_slides.ts:73-90 | the loop renders the slides in order, each must be a rendered `slide`, and concatenates them |
| HtmlSlidesGenerator.HtmlSlidesGenerator.constructor | xmdparser/src/templates/html_slides/generator_html_slides.ts:30-35 | the generator wraps its directly flowing generator |
| HtmlSlidesGenerator.HtmlSlidesGenerator.GenerateStart | xmdparser/src/templates/html_slides/generator_html_slides.ts:70-93 | the slides, then the root writer with the generator's document information |
| HtmlSlidesGenerator.HtmlSlidesGenerator.Generate | xmdparser/src/templates/html_slides/generator_html_slides.ts:39-52 | a missing or non-`start` tree and an empty flow are rejected; otherwise the split deck is rendered (with lines 109-119) |
| HtmlSlidesGeneratorOld.AsWrittenUntitledDeckThrows | xmdparser/src/html_slides/generator_html_slides.ts:65-80 | a deck with no level-1 heading throws reading `v` before any slide is rendered; the corrected generator renders it as "Untitled" |
| HtmlSlidesGeneratorOld.AsWrittenAgreesWhenTitled | xmdparser/src/html_slides/generator_html_slides.ts:65-80 | when some slide has a level-1 heading, the generator as written and the corrected one agree |
| HtmlSlidesGeneratorOld.HtmlSlidesGeneratorOld.constructor | xmdparser/src/html_slides/generator_html_slides.ts:24-38 | the generator wraps a generator of the older dialect |
| HtmlSlidesGeneratorOld.HtmlSlidesGeneratorOld.GenerateStart | xmdparser/src/html_slides/generator_html_slides.ts:79-104 | the information first, which may throw, then the slides and the root writer |
| HtmlSlidesGeneratorOld.HtmlSlidesGeneratorOld.Generate | xmdparser/src/html_slides/generator_html_slides.ts:46-58 | the checks, then the split deck (with lines 112-122) |
| TufteGenerator.AuthorField | xmdparser/src/templates/tufte/generator_tufte.ts:27-31 | corrected: the author is set exactly when the corrected author search finds a non-empty text, and is that text |
| TufteGenerator.AbstractField | xmdparser/src/templates/tufte/generator_tufte.ts:33-37 | corrected: the abstract is set exactly when the corrected abstract strings joined with "" are non-empty, and is that text |
| TufteGenerator.ExtractSemanticInfo | xmdparser/src/templates/tufte/generator_tufte.ts:24-40 | corrected: the base title, plus the corrected author and abstract fields, and no language |
| TufteGenerator.NoTitleHeading | xmdparser/src/templates/tufte/generator_tufte.ts:24-40 | a flow without a level-1 heading is "Untitled" with neither author nor abstract |
| TufteGenerator.AuthorFromParagraph | xmdparser/src/templates/tufte/generator_tufte.ts:27-31 | corrected: the author field is the text of the paragraph after the author heading when that is non-empty |
| TufteGenerator.AuthorFieldAsWritten | xmdparser/src/templates/tufte/generator_tufte.ts:27-31 | the author is set exactly when the author helper as written finds a non-empty text, and is that text |
| TufteGenerator.AbstractFieldAsWritten | xmdparser/src/templates/tufte/generator_tufte.ts:33-37 | the abstract is set exactly when the abstract helper's strings as written, joined with "", are non-empty, and is that text |
| TufteGenerator.ExtractSemanticInfoAsWritten | xmdparser/src/templates/tufte/generator_tufte.ts:24-40 | the base title, plus the author and abstract fields as written, and no language |
| TufteGenerator.AsWrittenInfoAgreesWhenTitleFirst | xmdparser/src/templates/tufte/generator_tufte.ts:24-40 | when the title heading is the first node, the information as written is the corrected one |
| TufteGenerator.AsWrittenInfoReadsParagraphBeforeTitle | xmdparser/src/templates/tufte/generator_tufte.ts:27-31 | on a horizontal rule, a paragraph "intro", the title, the author heading and a paragraph with the name, the author as written is "intro" and the corrected author is the name |
| TufteGenerator.NoTitleHeadingAsWritten | xmdparser/src/templates/tufte/generator_tufte.ts:24-40 | as written too, a flow without a level-1 heading is "Untitled" with neither author nor abstract |
| TufteGenerator.AuthorFromParagraphAsWritten | xmdparser/src/templates/tufte/generator_tufte.ts:27-31 | as written, the author field is the text of the first paragraph at or after the author heading's offset from the title, when that is non-empty |
| TufteGenerator.EnvFor | xmdparser/src/templates/tufte/generator_tufte.ts:16-21 | the base generator keeps the renderer and the other collaborators, and has an evaluator only when one was bound to its evaluator parameter |
| TufteGenerator.AsWrittenLosesEvaluator | xmdparser/src/templates/tufte/generator_tufte.ts:16-21 | the four arguments the subclasses pass bind, as written, to the renderer, the output image and two undefined parameters; corrected, to all four |
| TufteGenerator.AsWrittenRunChunkThrows | xmdparser/src/templates/tufte/generator_tufte.ts:16-21 | so a Tufte generator built as written throws on the first chunk that is run, whatever evaluator it was given |
| TexDocGenerator.TransformAst | xmdparser/src/templates/tex_doc/generator_tex_doc.ts:33-38 | conditional content, then title and author removal: fails exactly when nothing stays visible, and is a `start` root no longer than the visible flow |
| TexDocGenerator.ExtractSemanticInfo | xmdparser/src/templates/tex_doc/generator_tex_doc.ts:49-59 | corrected: the base title and the corrected author field, with no abstract and no language |
| TexDocGenerator.ExtractSemanticInfoAsWritten | xmdparser/src/templates/tex_doc/generator_tex_doc.ts:49-59 | the base title and the author field as written, with no abstract and no language |
| TexDocGenerator.AsWrittenInfoAgreesWhenTitleFirst | xmdparser/src/templates/tex_doc/generator_tex_doc.ts:49-59 | as written, the article information is the Tufte information as written without its abstract, and it is the corrected one when the title heading comes first |
| TexDocGenerator.TufteWithoutAbstract | xmdparser/src/templates/tex_doc/generator_tex_doc.ts:49-59 | the article information is the Tufte information without its abstract |
| TexDocGenerator.TransformComposes | xmdparser/src/templates/tex_doc/generator_tex_doc.ts:33-38 | the rewrite is the two transformers composed in that order |
| TexDocGenerator.New | xmdparser/src/templates/tex_doc/generator_tex_doc.ts:19-46 | a generator that creates directives controllers, with this information and rewrite, and nothing yet created |
| TexTufteGenerator.TransformAst | xmdparser/src/templates/tufte/tex_tufte/generator_tex_tufte.ts:57-62 | a `start` root holding the visible flow with its theorem environments folded |
| TexTufteGenerator.TransformLength | xmdparser/src/templates/tufte/tex_tufte/generator_tex_tufte.ts:57-62 | the rewrite leaves two nodes fewer per theorem environment of the visible flow |
| TexTufteGenerator.TheoremDispatch | xmdparser/src/templates/tufte/tex_tufte/generator_tex_tufte.ts:46-74 | a theorem node renders through the theorem writer with no renderer call, and the base dispatch rejects it |
| TexTufteGenerator.ElementsIgnoreTheorems | xmdparser/src/templates/tufte/tex_tufte/generator_tex_tufte.ts:46-54 | paragraph rendering does not depend on the theorem dispatch |
| TexTufteGenerator.FallBackToBase | xmdparser/src/templates/tufte/tex_tufte/generator_tex_tufte.ts:52-53 | every node other than a theorem renders as the base generator renders it |
| TexTufteGenerator.New | xmdparser/src/templates/tufte/tex_tufte/generator_tex_tufte.ts:28-70 | corrected half of the Findings row on generator_tufte.ts lines 16-21: a generator with the Tufte information, the folding rewrite, theorems and a directives controller, and with the evaluator it was given |
| TexTufteGenerator.NewImportedAsWritten | xmdparser/src/templates/tufte/tex_tufte/generator_tex_tufte.ts:77-109 | the imported twin as written: the theorem dispatch with the base information and conditional content only, and the base class's controller, which throws "Not implemented" |
| TexTufteGenerator.ImportedAsWrittenCannotFinish | xmdparser/src/templates/direct_flow_generator.ts:88-90 | so the imported twin as written never finishes a document: once the flow renders, the start node throws "Not implemented" |
| TexTufteGenerator.NewImported | xmdparser/src/templates/tufte/tex_tufte/generator_tex_tufte.ts:77-109 | corrected: the imported twin with a directives controller of its own, as the LaTeX article's imported twin has |
| TexTufteGenerator.ImportedReadsLanguage | xmdparser/src/templates/tufte/tex_tufte/generator_tex_tufte.ts:77-109 | corrected, once the flow renders the imported twin finishes exactly when writing the root does, with the language read from the world |
| FunctionalGenerator.Dispatch | src/generator.ts:100-111 | headings and paragraphs go to their writers, a code block only when its type is the code block constant, and any other type throws "Unrecognized node type" |
| FunctionalGenerator.FlowAppend | src/generator.ts:42-47 | the flow of two runs is the first flow then the second, and the first error wins |
| FunctionalGenerator.FlowSingle | src/generator.ts:42-47 | one component flows to what its writer gives |
| FunctionalGenerator.FlowFirstError | src/generator.ts:42-47 | the flow succeeds exactly when every component can be written, and otherwise fails with the first component's error |
| FunctionalGenerator.GenerateOutcome | src/generator.ts:19-33 | a missing tree, a missing template and a malformed tree are rejected in that order; then success exactly when every component is written, and the output is the root writer around the flow (with lines 42-47, 113-123) |
| FunctionalGenerator.UnrecognizedComponent | src/generator.ts:108-110 | a component of a type not dispatched ends the generation with the unrecognised-type error |
| FunctionalGenerator.AsWrittenCodeblockUnrecognized | src/generator.ts:95-107 | with the code block type undefined, a tree holding a code block always fails with the unrecognised-type error |
| FunctionalGenerator.CodeblockWritten | src/generator.ts:95-107 | with the code block type defined, a code block is written by the code block writer inside the root |
| FunctionalGenerator.MissingParagraphWriter | src/generator.ts:83-85 | a template without a paragraph writer fails on the first paragraph |
| FunctionalTemplate.WriteRoot | src/template_html_tufte.ts:8-16 | the content inside `body` and `article` |
| FunctionalTemplate.AsWrittenHeadingTwoLevelsDeeper | src/template_html_tufte.ts:24-32 | levels 1 to 4 give `h3` to `h6`, two levels deeper, and levels from 5 on or below -1 give the tag `undefined` |
| FunctionalTemplate.AsWrittenHeadingNeverAtItsLevel | src/template_html_tufte.ts:24-32 | no valid level 1 to 6 is written with the tag of its level |
| FunctionalTemplate.WriteInline | src/template_html_tufte.ts:40-53 | text as is, italic in `em`, bold in `strong`, inline code in `code`; any other type throws "Unrecognized par element type" |
| FunctionalTemplate.ParagraphFirstUnknownElement | src/template_html_tufte.ts:39-58 | a paragraph is written exactly when every element type is known, and otherwise fails naming the first unknown one |
| FunctionalTemplate.Texts | src/template_html_tufte.ts:47-55 | one text per element |
| FunctionalTemplate.PlainTextParagraph | src/template_html_tufte.ts:39-58 | a paragraph of plain text elements is their texts joined by "" inside `p` |
| FunctionalTemplate.WriteCodeblock | src/template_html_tufte.ts:65-73 | the text inside `pre` and `code`, the block the class-based HTML renderer writes without a result |
| FunctionalTemplate.AsWrittenTitleIsH3 | src/template_html_tufte.ts:24-32 | a document that is one level-1 heading is written with `h3` inside the root (with lines 75-80) |
| FunctionalTemplate.CorrectedHeadingAndCodeblock | src/template_html_tufte.ts:8-32 | with the code block type recognised and the level-checked heading writer, a level-1 heading and a code block give `h1` then the preformatted block, inside the root (with lines 65-80) |
| FunctionalTemplate.HeadingAndCodeblockText | src/template_html_tufte.ts:8-16 | the root around a heading and a code block spells out as one string |
| FunctionalTemplate.CorrectedFlow | src/template_html_tufte.ts:24-73 | the corrected flow of a heading and a code block is their two outputs in order |
| FunctionalTemplate.CorrectedComponents | src/template_html_tufte.ts:24-73 | the corrected template writes a level-1 heading as `h1` and a code block in `pre` and `code` |
| FunctionalTemplateJs.AsWrittenDoubledPrefix | src/template_html_tufte.js:22-31 | the tag gets a second "h": level 1 gives `hh3`, levels from 5 on give `hundefined`, and every level from -1 to 4 starts with `<hh` |
| FunctionalTemplateJs.ParagraphHasNoWriter | src/template_html_tufte.js:33-36 | the template has no paragraph writer, so any paragraph fails with "not a function" |
| HtmlTufteRenderer.Heading | xmdparser/src/templates/tufte/html_tufte/renderer_html_tufte.ts:57-69 | a level inside the tag list gives that tag around the text, and any other level gives the invalid-level error naming the number of tags |
| HtmlTufteRenderer.HeadingTagIsLevel | xmdparser/src/templates/tufte/html_tufte/renderer_html_tufte.ts:58 | the tag of level 1 to 6 is "h" followed by the level |
| HtmlTufteRenderer.HeadingLevels | xmdparser/src/templates/tufte/html_tufte/renderer_html_tufte.ts:57-69 | a heading is written exactly for levels 1 to 6, as `h<level>` around the text; any other level throws "Invalid level … Allowed is 1..6" |
| HtmlTufteRenderer.WriteParagraphCodeInline | xmdparser/src/templates/tufte/html_tufte/renderer_html_tufte.ts:97-111 | a truthy result is shown in `code` with the source in its title; otherwise the source is shown in `code` |
| HtmlTufteRenderer.CodeblockParts | xmdparser/src/templates/tufte/html_tufte/renderer_html_tufte.ts:114-127 | a code block always has ten parts |
| HtmlTufteRenderer.PreCodeText | xmdparser/src/templates/tufte/html_tufte/renderer_html_tufte.ts:115-120 | the source block is the text inside `pre` and `code` |
| HtmlTufteRenderer.CodeblockResultBlock | xmdparser/src/templates/tufte/html_tufte/renderer_html_tufte.ts:114-127 | a code block is the source block, then a second block holding the result exactly when the result is truthy; the output type has no effect |
| HtmlTufteRenderer.MarginNote | xmdparser/src/templates/tufte/html_tufte/renderer_html_tufte.ts:152-160 | the label and the checkbox name the same reference id, and the margin note shows the title or, when there is none, the alt text |
| HtmlTufteRenderer.LangAttribute | xmdparser/src/templates/tufte/html_tufte/renderer_html_tufte.ts:184 | the `lang` attribute is empty exactly when no language is set |
| HtmlTufteRenderer.HeaderBlockText | xmdparser/src/templates/tufte/html_tufte/renderer_html_tufte.ts:202-211 | each header block is its value between its tags when the value is non-empty, and nothing otherwise |
| HtmlTufteRenderer.BlockText | xmdparser/src/templates/tufte/html_tufte/renderer_html_tufte.ts:202-211 | the text of a header block, equal to its joined parts |
| HtmlTufteRenderer.HeaderText | xmdparser/src/templates/tufte/html_tufte/renderer_html_tufte.ts:202-211 | the article header is the title, author and abstract blocks in that order |
| HtmlTufteRenderer.PageStructure | xmdparser/src/templates/tufte/html_tufte/renderer_html_tufte.ts:175-217 | the page is the head, the header, the content verbatim, and the closing tags |
| HtmlTufteRenderer.HeadFields | xmdparser/src/templates/tufte/html_tufte/renderer_html_tufte.ts:184-194 | the `html` tag carries the language exactly when one is set, and the title falls back to "Untitled" |
| HtmlTufteRenderer.HtmlTufteRenderer.constructor | xmdparser/src/templates/tufte/html_tufte/renderer_html_tufte.ts:20-30 | a renderer with its reference id generator, its image server and whether it renders imported documents |
| HtmlTufteRenderer.HtmlTufteRenderer.WriteRoot | xmdparser/src/templates/tufte/html_tufte/renderer_html_tufte.ts:233-243 | the page around the content, or for the renderer of imported documents the content unchanged (with lines 45-54) |
| HtmlTufteRenderer.HtmlTufteRenderer.WriteImage | xmdparser/src/templates/tufte/html_tufte/renderer_html_tufte.ts:141-161 | missing extensions throw; a page-wide figure takes no reference id; a figure with a margin note takes exactly the next id of the generator |
| HtmlTufteRendererOld.PageStructure | xmdparser/src/html_tufte/renderer_html_tufte.ts:175-202 | the content follows the opening of the article directly; the `html` tag has no language, and the title falls back to "Untitled" |
| HtmlTufteRendererOld.LaterPageWithoutHeader | xmdparser/src/html_tufte/renderer_html_tufte.ts:175-202 | for a document without a title, the page is the later renderer's page of a document with no language, author or abstract |
| HtmlTufteTemplate.PageStructure | xmdparser/src/template_html_tufte.ts:105-130 | the page is in English whatever the document's language, its title is empty when the document has none, and it ends after the body, leaving `html` open |
| HtmlSlidesRenderer.WriteSlide | xmdparser/src/templates/html_slides/renderer_html_slides.ts:31-37 | a slide is its content inside `section` |
| HtmlSlidesRenderer.WriteHRule | xmdparser/src/templates/html_slides/renderer_html_slides.ts:150-153 | writing a horizontal rule always throws "Not implemented" |
| HtmlSlidesRenderer.PageAroundContent | xmdparser/src/templates/html_slides/renderer_html_slides.ts:155-194 | the content sits verbatim inside the slides `div`, which closes right after it, and the title falls back to "Untitled" |
| HtmlSlidesRenderer.Page | xmdparser/src/templates/html_slides/renderer_html_slides.ts:155-194 | unset document information throws when its language is read; otherwise the page carries a `lang` attribute exactly when a language is set |
| HtmlSlidesRenderer.HtmlSlidesRenderer.constructor | xmdparser/src/templates/html_slides/renderer_html_slides.ts:20-24 | a renderer writing into the given output image |
| HtmlSlidesRenderer.HtmlSlidesRenderer.WriteOutput | xmdparser/src/templates/html_slides/renderer_html_slides.ts:40-46 | the output is added to the output image as one more component at `/index.html`, the path returned |
| HtmlSlidesRenderer.HtmlSlidesRenderer.WriteRoot | xmdparser/src/templates/html_slides/renderer_html_slides.ts:197-220 | the page around the content for imported documents too, because the static page call never reaches the imported renderer's override (with lines 49-56) |
| HtmlSlidesRenderer.HtmlSlidesRenderer.WriteImage | xmdparser/src/templates/html_slides/renderer_html_slides.ts:143-147 | a bare image tag on the served path, with no figure and no reference id |
| HtmlSlidesRendererOld.LaterPageWithoutLanguage | xmdparser/src/html_slides/renderer_html_slides.ts:171-207 | the page is the later renderer's page of the same document with its language unset |
| TexRenderer.Heading | xmdparser/src/templates/tex/renderer_tex.ts:37-46 | a level inside the table of command names is written, and any other level gives the invalid-level error naming the table's size |
| TexRenderer.HeadingLevels | xmdparser/src/templates/tex/renderer_tex.ts:37-46 | levels 1 to 5 are accepted: 1 and 2 give `\section`, then `\subsection`, `\subsubsection` and `\paragraph`; any other level throws "Invalid level … Allowed is 1..5" |
| TexRenderer.WriteParagraphCodeInline | xmdparser/src/templates/tex/renderer_tex.ts:74-80 | inline code shows the result when it is truthy and the source otherwise, in a `\Verb` |
| TexRenderer.FalsyResultIsNoResult | xmdparser/src/templates/tex/renderer_tex.ts:83-93 | a falsy result writes the same lines as no result: the quoted source and four empty lines |
| TexRenderer.CodeblockWithResult | xmdparser/src/templates/tex/renderer_tex.ts:83-93 | with a truthy result the block is the quoted source, a line break, "Result:" and the quoted result |
| TexRenderer.Figure | xmdparser/src/templates/tex/renderer_tex.ts:105-127 | missing extensions throw; otherwise the figure includes the served image, labels it with the reference id, and spans the page exactly when `fullwidth` is "true" |
| TexRenderer.TexRenderer.constructor | xmdparser/src/templates/tex/renderer_tex.ts:17-22 | a renderer with its output image, reference id generator and image server |
| TexRenderer.TexRenderer.WriteOutput | xmdparser/src/templates/tex/renderer_tex.ts:25-31 | the output is added to the output image as one more component at `/main.tex`, the path returned |
| TexRenderer.TexRenderer.WriteImage | xmdparser/src/templates/tex/renderer_tex.ts:105-127 | exactly one reference id is taken, before the extensions are read, and the figure labelled with it is written |
| TexDocRenderer.Preamble | xmdparser/src/templates/tex_doc/renderer_tex_doc.ts:162-179 | the page has seventeen lines before the content |
| TexDocRenderer.PageAroundContent | xmdparser/src/templates/tex_doc/renderer_tex_doc.ts:156-184 | the content sits verbatim on lines of its own between the preamble and the closing lines |
| TexDocRenderer.TitleAndAuthorLines | xmdparser/src/templates/tex_doc/renderer_tex_doc.ts:160-176 | the title line falls back to "Untitled", and the author line is empty exactly when there is no non-empty author |
| TexDocRenderer.PageIgnoresAbstractAndLanguage | xmdparser/src/templates/tex_doc/renderer_tex_doc.ts:156-184 | the page reads only the title and the author of the document information |
| TexDocRenderer.CodeblockResult | xmdparser/src/templates/tex_doc/renderer_tex_doc.ts:105-115 | code goes in `docspec`, and the result block follows exactly when the result is truthy |
| TexDocRenderer.TexDocRenderer.constructor | xmdparser/src/templates/tex_doc/renderer_tex_doc.ts:31-41 | a renderer with its reference id generator, its image server and whether it renders imported documents |
| TexDocRenderer.TexDocRenderer.WriteRoot | xmdparser/src/templates/tex_doc/renderer_tex_doc.ts:199-204 | the article around the content, or for the renderer of imported documents the content unchanged (with lines 54-56) |
| TexDocRenderer.TexDocRenderer.WriteImage | xmdparser/src/templates/tex_doc/renderer_tex_doc.ts:127-149 | exactly one reference id is taken, before the extensions are read, and the figure labelled with it is written |
| TexTufteRenderer.AbstractLines | xmdparser/src/templates/tufte/tex_tufte/renderer_tex_tufte.ts:188-191 | the abstract block always has four lines |
| TexTufteRenderer.Preamble | xmdparser/src/templates/tufte/tex_tufte/renderer_tex_tufte.ts:165-192 | the handout has twenty-two lines before the abstract block, then the abstract block |
| TexTufteRenderer.PageAroundContent | xmdparser/src/templates/tufte/tex_tufte/renderer_tex_tufte.ts:158-197 | the content sits verbatim on lines of its own between the preamble and the bibliography and closing lines |
| TexTufteRenderer.PreambleFields | xmdparser/src/templates/tufte/tex_tufte/renderer_tex_tufte.ts:158-192 | the title falls back to "Untitled"; the author line is empty exactly when there is no non-empty author; the abstract block is present exactly when the abstract is non-empty |
| TexTufteRenderer.PageIgnoresLanguage | xmdparser/src/templates/tufte/tex_tufte/renderer_tex_tufte.ts:158-197 | the page does not read the language of the document information |
| TexTufteRenderer.TexTufteRenderer.constructor | xmdparser/src/templates/tufte/tex_tufte/renderer_tex_tufte.ts:31-41 | a renderer with its reference id generator, its image server and whether it renders imported documents |
| TexTufteRenderer.TexTufteRenderer.WriteRoot | xmdparser/src/templates/tufte/tex_tufte/renderer_tex_tufte.ts:212-217 | the handout around the content, or for the renderer of imported documents the content unchanged (with lines 54-58) |
| TexTufteRenderer.TexTufteRenderer.WriteImage | xmdparser/src/templates/tufte/tex_tufte/renderer_tex_tufte.ts:129-151 | exactly one reference id is taken, before the extensions are read, and the figure labelled with it is written |
| TexTufteTemplate.HeadingLevels | xmdparser/src/template_tex_tufte.ts:54-62 | levels 1 to 4 give section, subsection, subsubsection and paragraph; any other level throws "Invalid level … Allowed is 1..4" |
| TexTufteTemplate.BlocksWithoutFinalLineBreak | xmdparser/src/template_tex_tufte.ts:99-118 | code and equation blocks are those of the LaTeX article renderer without their final line break |
| TexTufteTemplate.CodeblockResult | xmdparser/src/template_tex_tufte.ts:99-109 | the result block follows the source block exactly when the result is truthy |
| TexTufteTemplate.PageIsFixedHandout | xmdparser/src/template_tex_tufte.ts:145-181 | the page is the handout with the fixed author and the fixed abstract; only the title is read, with the "Untitled" fallback |
| TexTufteTemplate.TexTufteTemplate.constructor | xmdparser/src/template_tex_tufte.ts:29-39 | a template with its reference id generator and its image server |
| TexTufteTemplate.TexTufteTemplate.WriteImage | xmdparser/src/template_tex_tufte.ts:121-143 | exactly one reference id is taken, before the extensions are read, and the figure has no final line break |
| TexTufteRendererOld.WriteHRule | xmdparser/src/tex_tufte/renderer_tex_tufte.ts:135-137 | the rule is the `%HRULE` comment on a line of its own, as the later renderers write it |
| MathEnvironTex.TheoremBlock | packages/xmdparser/src/templates/tufte/tex_tufte/renderer_math_environ_tex.ts:16-23 | without a proof the theorem is its titled `theorem` environment with the statement on its own line, and no final line break |
| MathEnvironTex.EmptyProofIsNoProof | packages/xmdparser/src/templates/tufte/tex_tufte/renderer_math_environ_tex.ts:16-23 | an empty proof is written as no proof |
| MathEnvironTex.ProofFollowsTheorem | packages/xmdparser/src/templates/tufte/tex_tufte/renderer_math_environ_tex.ts:16-33 | with a proof, the output is the theorem, then the `proof` environment with the proof verbatim, then a line break |
| CodeBlockStyle.TexCodeBlockStylist.Lines | xmdparser/src/generic/code_block_style.ts:33-61 | a styled block always has ten lines |
| CodeBlockStyle.StyleLines | xmdparser/src/generic/code_block_style.ts:24-61 | the source sits verbatim in the framed listing; the nested output frame appears exactly when the output is non-empty, with the output in `equation*` for "latex" and in an unframed `lstlisting` for any other format, and is five empty lines otherwise |
| CodeBlockStyle.EmptyOutputIsNoOutput | xmdparser/src/generic/code_block_style.ts:24-61 | an empty output is styled like no output, whatever the format |
| CodeBlockStyle.FormatsDifferInOutputEnvironmentOnly | xmdparser/src/generic/code_block_style.ts:24-61 | every format other than "latex" styles alike, and the formats differ only in the output environment |
| CodeBlockStyle.StyleWithOutput | xmdparser/src/generic/code_block_style.ts:33-61 | with a non-empty output the block is the listing, a line break, the output frame, and the closing frame line |
| Rendering.OrEmptyOnlyWhenBothAre | xmdparser/src/templates/tufte/html_tufte/renderer_html_tufte.ts:194 | JavaScript's logical or of an optional string and a fallback is empty exactly when the value is not a non-empty string and the fallback is empty, and is always the fallback or the present value |
| Rendering.LevelNameIdentifiesLevel | xmdparser/src/templates/tufte/html_tufte/renderer_html_tufte.ts:58-63 | with a table of distinct names, two levels that pick the same entry are the same level |
| Text.Split | xmdparser/src/extensions/extensions.ts:49 | splitting on one character gives at least one piece, no piece holds the separator, and there are at least two pieces exactly when the separator occurs |
| Text.SplitJoin | xmdparser/src/extensions/extensions.ts:49 | joining the pieces with the separator gives back the string |
| Text.JoinSplit | xmdparser/src/extensions/extensions.ts:49 | splitting pieces joined by a separator none of them holds gives back the pieces |
| Text.TrimStartRemovesWhiteSpace | xmdparser/src/extensions/extensions.ts:52 | trimming the start removes exactly the leading white space |
| Text.TrimEndRemovesWhiteSpace | xmdparser/src/extensions/extensions.ts:52 | trimming the end removes exactly the trailing white space |
| Text.TrimEdges | xmdparser/src/extensions/extensions.ts:52 | a trimmed string neither starts nor ends with white space |
| Text.ToLowerPointwise | xmdparser/src/resource_image.ts:131 | lower-casing maps each character on its own and keeps the length |
| Text.NatToStringValue | xmdparser/src/templates/tufte/html_tufte/renderer_html_tufte.ts:60 | the decimal digits printed for a number read back as that number |
| FunctionalGeneratorJs.DispatchHeadingAndParagraphOnly | src/generator.js:86-95 | only headings and paragraphs are dispatched; every other type throws "Unrecognized node type" naming it |
| FunctionalGeneratorJs.CodeblockUnrecognized | src/generator.js:86-95 | a tree holding a code block fails with the unrecognised-type error, whatever the template |
| FunctionalGeneratorJs.FlowAgreesWithoutCodeblocks | src/generator.js:41-46 | components without the code block type flow alike with and without a code block case |
| FunctionalGeneratorJs.AgreesWithoutCodeblocks | src/generator.js:18-46 | on a tree without code blocks the checks, the output and the errors are those of the generator with a code block case |

## Left out

- Running Python code: `exec` in the session table is a function parameter that maps the source and the globals to new globals, or to the globals as far as the code got and the exception it raised. What a chunk does to its globals is not modelled.
- Session ids are an input of `NewSession`. Drawing them at random is not modelled.
- The HTTP server and client, the child processes that run the Python server and `pdflatex`, and the command-line and web entry points are I/O around the core.
- File-system work is not modelled: reading files into a resource image, writing images and outputs to disk, and serving style sheets, scripts and template files. The paths served are parameters of the page writers. The image server is a function parameter of each renderer.
- Base64 encoding (section 4 of RFC 4648) is kept abstract: the empty stream is its own encoding, and any other stream encodes to a different stream. An empty file read from disk is not told apart from a non-empty one.
- `os.EOL`, the line separator the TeX renderers join with, is "\n" in the model. On Windows it is "\r\n".
- `path.join`, `extname` and `basename` are not modelled. The model takes paths and extensions as strings.
- Parsing markdown into a tree is not modelled. Every operation starts from the tree.
- Progress reporting and the debugging timer are not modelled. Neither affects the output.
- `async` calls are modelled as ordinary calls in order, since generation awaits each one before the next.
- The directives controller that records `def` flags is not among the files modelled. The conditional transformer keeps the defined flags as a set of names.
- The `TemplateGenerator` kind of `LegacyGenerator` renders through a template object whose interface is not among the files modelled. Its writers are functions of the renderer environment.
- `Text.ToLower` lower-cases ASCII letters only, because the keywords and paths compared after `toLowerCase` are ASCII. Full Unicode case mapping is not modelled.
- `Text.Trim` removes the characters JavaScript's `trim` treats as white space and line terminators, listed character by character.
- Integers are unbounded, except where the source relies on a bound: the id generator's `Number.MAX_SAFE_INTEGER` limit is modelled.
- TufteGenerator.AuthorField: the corrected author search; the source calls the helper as written, which `TufteGenerator.AuthorFieldAsWritten` models. The two agree when the title heading comes first.
- TufteGenerator.AbstractField: the corrected abstract search; the source calls the helper as written, which `TufteGenerator.AbstractFieldAsWritten` models.
- TufteGenerator.ExtractSemanticInfo: the generators are built with the corrected information; `TufteGenerator.ExtractSemanticInfoAsWritten` is what the source computes, and it can name a paragraph before the title as the author or the abstract.
- TufteGenerator.AuthorFromParagraph: holds for the corrected information; `TufteGenerator.AuthorFromParagraphAsWritten` states where the search as written looks.
- TexDocGenerator.ExtractSemanticInfo: the corrected author search; `TexDocGenerator.ExtractSemanticInfoAsWritten` is what the source computes.
- LegacyGenerator.FlowAgrees: holds for flows without images only, because the old LaTeX generator parses image clauses with the older parser, which reports `fullwidth` alone.
- CodeEvaluation.ConvertResult: an integer result is printed as the exact integer `parseInt` reads. JavaScript's number rounds integers past 2^53 and prints those from 10^21 on in exponent notation; floating point is not modelled.

## Findings

| source | as written | input that shows it | evidently intended | confidence | as-written member | corrected member |
|---|---|---|---|---|---|---|
| packages/xmdparser/src/helpers/author_helper.ts:15-25 | the author heading is searched in the nodes from the title on, but the index found is used on the whole list | a horizontal rule, a paragraph "intro", the title, the author heading, a paragraph with the name: "intro" is returned | the paragraph after the author heading, here the name | not executed | AuthorHelper.AsWrittenReadsParagraphBeforeTitle | AuthorHelper.AuthorIsParagraphAfterHeading |
| xmdparser/src/helpers/abstract_helper.ts:15-25 | the same relative index is used on the whole list | the same five nodes with an abstract heading: the paragraph before the title is returned | the paragraph after the abstract heading | not executed | AbstractHelper.AsWrittenReadsParagraphBeforeTitle | AbstractHelper.AbstractIsParagraphAfterHeading |
| xmdparser/src/templates/external_res_manager.ts:44-47 | `addFromImage` gets the newly generated path as its source and no destination | any image with an allowed extension: the input image holds only "/"-rooted paths, never "__res/images/imm0.png", so the call throws "Cannot find component" | copy the served image from its own path to the generated one | not executed | ExternalResources.AsWrittenServeAlwaysThrows | ExternalResources.ExternalResourceManager.ServeImage |
| xmdparser/src/templates/html_slides/generator_html_slides.ts:39-52 | the document information is never set before the root is written | any well-formed deck whose slides render: the renderer throws reading `language` of `undefined` | the information extracted from the transformed tree | not executed | HtmlSlidesGenerator.AsWrittenNeverGenerates | HtmlSlidesGenerator.CorrectedGenerates |
| xmdparser/src/templates/tufte/generator_tufte.ts:16-21 | the constructor takes the renderer and the evaluator but passes them as the first two of the base constructor's four parameters | a LaTeX Tufte generator given an evaluator, on a tree with one evaluated code block: it throws that there is no evaluator | bind all four arguments to the base parameters in place | not executed | TufteGenerator.AsWrittenRunChunkThrows | TexTufteGenerator.New |
| xmdparser/src/direct_flow_generator.ts:136-153 | `generateStart` reads `lang` from the directives controller, which the base class never creates | any tree whose flow renders: it throws reading `lang` of `undefined` | no language when there is no controller | not executed | DirectFlowGeneratorOld.AsWrittenNeverGenerates | DirectFlowGeneratorOld.CorrectedAgreesBeforeLanguage |
| xmdparser/src/html_slides/generator_html_slides.ts:65-80 | the title is read as `.v` of the first level-1 heading even when there is none | a deck of one slide holding only a paragraph: it throws reading `v` of `undefined` | the "Untitled" fallback the renderers use | not executed | HtmlSlidesGeneratorOld.AsWrittenUntitledDeckThrows | HtmlSlidesGenerator.ExtractAsWrittenAgrees |
| src/template_html_tufte.ts:24-32 | the tag is taken at index `level + 1` of a table that starts at "h1", with no range check | a level-1 heading: written as `h3` | `h1` for level 1, and an error outside 1 to 6 | not executed | FunctionalTemplate.AsWrittenHeadingTwoLevelsDeeper | FunctionalTemplate.CorrectedHeadingAndCodeblock |
| src/template_html_tufte.js:22-31 | the tag gets an "h" prefix on top of a table entry that already starts with "h" | a level-1 heading: written as `hh3` | `h1` for level 1 | not executed | FunctionalTemplateJs.AsWrittenDoubledPrefix | HtmlTufteRenderer.HeadingLevels |
| src/generator.ts:95-111 | the dispatch compares code blocks against a constant the imported constants do not define | a tree holding one code block: it throws "Unrecognized node type" | code blocks written by the code block writer | not executed | FunctionalGenerator.AsWrittenCodeblockUnrecognized | FunctionalGenerator.CodeblockWritten |
| xmdparser/src/templates/tufte/generator_tufte.ts:24-40 | the author and abstract fields come from the helpers as written, which use the section heading's index relative to the title on the whole list | a horizontal rule, a paragraph "intro", the title, the author heading, a paragraph with the name: the document's author is "intro" | the paragraph after the author heading, here the name | not executed | TufteGenerator.AsWrittenInfoReadsParagraphBeforeTitle | TufteGenerator.ExtractSemanticInfo |
| xmdparser/src/templates/tufte/tex_tufte/generator_tex_tufte.ts:77-109 | the imported-document generator does not override `createDirectivesController`, so it inherits the base class's "Not implemented" throw | any imported document whose flow renders: `generateStart` asks for the controller to read the language and throws "Not implemented" | a directives controller of its own, as the LaTeX article's imported generator creates | not executed | TexTufteGenerator.ImportedAsWrittenCannotFinish | TexTufteGenerator.ImportedReadsLanguage |
