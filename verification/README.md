# CWEB: a verified model of CTANGLE and CWEAVE

CWEB has two programs that read the same kind of file. CTANGLE takes the C texts of a web apart and expands them into a
program; CWEAVE parses the same C texts and typesets them. This project models the parts of both in which something can go
wrong that cannot be seen from one function, and proves what they are for.

- **The scrap parser of CWEAVE** (`Scraps`, `Productions`, `Grammar`, `Parsing`, `Reservations`, `Leftmost`, `LeftmostRuns`,
  `Derivations`, `MathModes`, `Indentation`, `Conservation`, `Translations`, `ParserRuns`, `Translator`). About a hundred
  productions rewrite a list of scraps, in place, in an array with a read pointer, a write pointer and a cursor that jumps
  back. `Productions` is the grammar as a table, and `Grammar` compares it with the documented one; `Parsing` is the rewriting
  of lists; `Translator` is the array, proved to do the same. `Leftmost` and `LeftmostRuns` prove when the cursor jumps back
  far enough, and `Reservations` what `make_reserved` finds and changes. `Derivations` says what a parse means, without the
  parser's memory, and the three modules after it prove its laws; `Translations` connects the two.
- **Token output** (`TokenTrees`, `TokenOutput`, `TranslationOutput`). Translations are trees of texts that are read with a
  stack, also in the middle of one another.
- **Section names** (`Sections`, `SearchTrees`, `NameArena`, `NameStates`, `NameDirectory`). Names may be abbreviated; they
  are kept in a search tree by the shortest abbreviation seen so far, and spelled in chunks in one arena of bytes.
- **CTANGLE's output** (`TangleTokens`, `TangleExpansion`, `TangleMachine`, `TangleRuns`, `TangleWriter`, `TangleSpacing`,
  `TangleReading`, `TangleSections`, `TanglePrograms`, `Tangler`). Replacement texts are packed into bytes, linked to sections
  and expanded by a stack machine; the output can be read again as it was read before.
- **The index** (`IndexKeys`, `IndexAlphabet`, `IndexOrder`, `IndexLists`, `IndexSorter`) is sorted by a radix sort with a stack and linked
  buckets, and **cross-references** (`XrefLists`, `XrefMemory`) are linked lists that share one memory.
- **Change files** (`ChangeFiles`, `LineReader`) patch a web file while it is read.

Where the source updates globals, the model is a class with the same fields, and its methods are proved against functions of
the old state; what the routines are for is then proved of these functions. Pointers are indices. An overflow or fatal error
is a result or a flag. `Bytes` has what all arenas share.

## Model

| member | source | states |
|---|---|---|
| `Productions.ProductionLegal` | ns-allinone-2.35/cweb/cweave.c:2294-2942 | for any four categories in the window, every production consumes only scraps that are there, never moves forward by more than one, lowers the rank when it consumes one scrap, lists each consumed scrap exactly once and in order (84 and 85 excepted), opens and closes indents in balance with the categories, and puts no symbol where its mode is not certain |
| `Productions.ProductionInherits` | ns-allinone-2.35/cweb/cweave.c:2294-2942 | a production makes an end_arg only out of a scrap of that category, and a prelangle or prerangle only out of such a scrap and an insert next to it |
| `Productions.NonMathIsCodeTest` | ns-allinone-2.35/cweb/cweave.c:2007-2007 | the symbols put into horizontal mode are exactly those that pass the code test of `big_app` |
| `Grammar.ProductionAgrees` | ns-allinone-2.35/cweb/prod.w:53-248 | whatever the parser sees, it does the production of the documented table with the same number: the scraps combined, the new category, every symbol of the translation, the identifier that is made reserved; exactly five productions depart from the table, and `Instead` says how |
| `Parsing.ReserveIsReserving` | ns-allinone-2.35/cweb/cweave.c:2068-2087 | `make_reserved` changes nothing but identifier flags to reserved flags and categories from exp to raw_int, and keeps every text reference pointing to an earlier text |
| `Reservations.FirstIdentIs` | ns-allinone-2.35/cweb/cweave.c:2043-2063 | the search finds the first identifier among all tokens in sight, and nothing only if there is none; in every text, what comes after an `inserted` mark is out of sight |
| `Reservations.SightIsFlatten` | ns-allinone-2.35/cweb/cweave.c:2043-2063 | without such marks, all tokens that are read of a text are in sight, in the order in which they are read |
| `Reservations.ReservesExactly` | ns-allinone-2.35/cweb/cweave.c:2068-2087 | if an identifier is in sight, exactly the exp scraps from the given one on that begin with it become raw_int (of several that begin at the same place, the first), their first tokens and the one found become reserved words, and the identifier gets the category raw_int; nothing else changes, and nothing at all if none is in sight |
| `Reservations.ReservesAll` | ns-allinone-2.35/cweb/cweave.c:2076-2082 | if no two exp scraps begin at the same place, all exp scraps that begin with the identifier become raw_int |
| `Parsing.ActionApplies` | ns-allinone-2.35/cweb/cweave.c:2269-2292 | whatever matches at a reachable state, it uses no slot past the last scrap: the zero padding takes part in no production |
| `Parsing.StepGood` | ns-allinone-2.35/cweb/cweave.c:2143-2239 | every step keeps the state good: texts frozen and well founded, each scrap with a category, both mathness fields definite or both not |
| `Parsing.StepShrinks` | ns-allinone-2.35/cweb/cweave.c:2140-2239 | every step makes the scrap list shorter, or lowers the sum of ranks, or moves on without changing anything |
| `Parsing.Parse` | ns-allinone-2.35/cweb/cweave.c:2269-2292 | so the parse loop ends for every scrap sequence, past the last scrap and in a good state |
| `LeftmostMatches.MatchesIs` | ns-allinone-2.35/cweb/cweave.c:2294-2942 | a production matches exactly at the left-hand sides of two, three and four categories listed, an insert in sight, or the end of a macro argument |
| `LeftmostRuns.StepClearIff` | ns-allinone-2.35/cweb/cweave.w:2111-2127 | going back by `d` is enough: if no production matches at a passed position before a step, none does after it, if and only if the step is not one of the exceptions that `Slips` names, in terms of the categories around `pp` |
| `LeftmostRuns.LeftmostIff` | ns-allinone-2.35/cweb/cweave.w:2111-2127 | over whole runs: the parser always acts at the leftmost match exactly if no step is an exception |
| `LeftmostRuns.Irreducible` | ns-allinone-2.35/cweb/cweave.w:3000-3014 | then no production matches anywhere among the scraps that remain at the end |
| `LeftmostRuns.TwoLabels` | ns-allinone-2.35/cweb/cweave.c:2322-2322 | two labels are left as two tags, to which production 74 could still be applied |
| `LeftmostRuns.FunctionTypedef` | ns-allinone-2.35/cweb/cweave.c:2349-2349 | the name in the typedef of a function type is never made reserved, although production 42 matches when the parameters have become a cast |
| `Translators.Translator.BigApp` | ns-allinone-2.35/cweb/cweave.c:2003-2018 | the tokens appended and both mathness registers, with the toggle if the modes differ |
| `Translators.Translator.BigApp1` | ns-allinone-2.35/cweb/cweave.c:2020-2038 | the same for a scrap, whose two boundaries are taken over |
| `Translators.Translator.FindFirstIdent` | ns-allinone-2.35/cweb/cweave.c:2043-2063 | the first identifier in the flattened text, the search of a text ending at an `inserted` mark |
| `Translators.Translator.MakeReserved` | ns-allinone-2.35/cweb/cweave.c:2068-2087 | the in-place scan over the read and the unread part equals the scan over one list |
| `Translators.Translator.FillWindow` | ns-allinone-2.35/cweb/cweave.c:2273-2279 | reading scraps and padding with zeros leaves the list (read part and unread part) as it is, and the window is full or everything is read |
| `Translators.Translator.Reduce` | ns-allinone-2.35/cweb/cweave.c:2143-2191 | the shift in the array replaces a `k`-long stretch of the list by the new scrap, touches no unread scrap, and `pp` moves by `d` but not below the base |
| `Translators.Translator.Relabel` | ns-allinone-2.35/cweb/cweave.c:2203-2236 | the one-scrap case of `squash`: only the category of one scrap changes |
| `Translators.Translator.ParseStep` | ns-allinone-2.35/cweb/cweave.c:2269-2942 | one pass through the loop on the array is one step on the list |
| `Translators.Translator.ParseAll` | ns-allinone-2.35/cweb/cweave.c:2266-2947 | the whole loop is `Parse` |
| `Translators.Translator.Translate` | ns-allinone-2.35/cweb/cweave.c:2244-2983 | the whole routine: the store afterwards is `Translated` of the scraps and the store before, and the result is the number of the last text |
| `MathModes.TreeRuns` | ns-allinone-2.35/cweb/cweave.c:2003-2038 | mathness: the typeset text of every derivation runs from its first boundary mode to its second, every scrap met in its own mode and every symbol in one that suits it; if the boundaries are indefinite it runs in either mode |
| `Indentation.TreeIndents` | ns-allinone-2.35/cweb/cweave.c:2294-2942 | indentation: a derivation leaves two indents open if its category is fn_decl and none otherwise, apart from those of fn_decl scraps swallowed by an end_arg |
| `Indentation.NothingLost` | ns-allinone-2.35/cweb/cweave.c:2297-2299 | without an end_arg in the input, none are swallowed |
| `Conservation.TreeConserves` | ns-allinone-2.35/cweb/cweave.c:2140-2239 | conservation: the parts of a derivation cover its input scraps once and in order, and these are what the text shows |
| `Conservation.AngleShape` | ns-allinone-2.35/cweb/cweave.c:2294-2302 | a derivation of category prelangle or prerangle covers one such scrap, and before and after it nothing but inserts |
| `Conservation.TreeReplaces` | ns-allinone-2.35/cweb/cweave.c:2787-2800 | each `<` or `>` that replaces something replaces exactly one prelangle or prerangle scrap with the inserts that it has absorbed, and nothing else |
| `Translations.StepDerives` | ns-allinone-2.35/cweb/cweave.c:2140-2239 | after a step on the token memory every scrap still has a derivation whose text is what the memory expands to, and the derivations cover the same input |
| `Translations.TranslateDerives` | ns-allinone-2.35/cweb/cweave.c:2244-2978 | the text returned by `translate` expands to the joined text of derivations of the whole input |
| `Translations.TranslateRuns` | ns-allinone-2.35/cweb/cweave.c:2970-2976 | that text starts and ends outside math |
| `Translations.TranslateConserves` | ns-allinone-2.35/cweb/cweave.c:2952-2978 | that text shows every scrap of the input once and in order, but for angle signs, each of which replaces one prelangle or prerangle scrap and absorbed inserts |
| `Translations.TranslateIndents` | ns-allinone-2.35/cweb/cweave.c:2952-2978 | what that text leaves open is two indents for every unreduced fn_decl, plus what end_arg scraps swallowed |
| `Translations.TranslateKeepsTokens` | ns-allinone-2.35/cweb/cweave.c:2068-2087 | all tokens of the input texts are still in the memory, identifiers perhaps as reserved words |
| `ParserRuns.ReachableLaws` | ns-allinone-2.35/cweb/cweave.c:2269-2942 | in every state after any number of steps: the scraps stand for the whole input, each obeys the mathness and conservation laws and the law on what a sign may replace, and without macro-argument brackets each leaves two indents open exactly if it is a fn_decl |
| `ParserRuns.TranslateLeavesOuter` | ns-allinone-2.35/cweb/cweave.c:3339-3358 | a translation made of newer texts leaves all older texts untouched and contains no `end_translation`: what `output_C` needs |
| `TokenTrees.FlattenGrown` | ns-allinone-2.35/cweb/cweave.c:3287-3337 | making more texts does not change what an old one means |
| `TokenOutputs.TokenOutput.PushLevel` | ns-allinone-2.35/cweb/cweave.c:3290-3303 | the level that is put on the stack, and the overflow at 399 levels |
| `TokenOutputs.TokenOutput.PopLevel` | ns-allinone-2.35/cweb/cweave.c:3307-3314 | the level below, with its mode |
| `TokenOutputs.TokenOutput.GetOutput` | ns-allinone-2.35/cweb/cweave.c:3318-3337 | the next token of the recursive flattening of everything that is to be read, with the mode inner exactly inside an inner reference; it fails only at a full stack, and only where the texts do not fit it |
| `TokenOutputs.TokenOutput.MakeOutput` | ns-allinone-2.35/cweb/cweave.c:3360-3382 | the flattening of the text under construction is read, up to `end_translation`, and what was still to be read before is read afterwards; the stack overflows exactly if the levels in use and the depth of the text do not fit 399 |
| `TokenOutputs.TokenOutput.OutputC` | ns-allinone-2.35/cweb/cweave.c:3339-3358 | a nested translation is read as an inner text, the token memory is set back, and the interrupted reading goes on as if nothing had happened; with the exact condition for an overflow |
| `TranslationOutput.FlattenIsExpansion` | ns-allinone-2.35/cweb/cweave.c:3318-3337 | reading a text made by productions token by token gives its expansion, with the tokens of the input texts in the places of the scraps |
| `TranslationOutput.FlattenLater` | ns-allinone-2.35/cweb/cweave.c:2068-2087 | reading an old text in a later memory gives the same tokens, up to identifiers made reserved |
| `TranslationOutput.TranslateIsSound` | ns-allinone-2.35/cweb/cweave.c:2244-2983 | parser and output together: what is read of the result of `translate` is the text of derivations of the whole input, with the tokens that the input texts had before (up to identifiers made reserved); it has the mathness, conservation and indentation laws, and if the input texts leave no indents open, neither does what is read, but for unreduced fn_decl scraps |
| `Sections.CompareIs` | ns-allinone-2.35/cweb/common.c:795-809 | the results of `web_strcmp` in terms of prefixes |
| `Sections.WebStrcmp` | ns-allinone-2.35/cweb/common.c:795-809 | the loop computes that comparison |
| `Sections.CompareDiffers` | ns-allinone-2.35/cweb/common.c:795-809 | less or greater as the first characters that differ are, compared with signs |
| `Sections.LookupKeepsInv` | ns-allinone-2.35/cweb/common.c:866-957 | keys stay abbreviations of their names and pairwise prefix-free after any lookup |
| `Sections.SettledIsUnique` | ns-allinone-2.35/cweb/common.c:884-906 | a name between a section's key and its full name matches that section and no other |
| `Sections.LookupSettles` | ns-allinone-2.35/cweb/common.c:914-952 | after a lookup without an error message the name lies there |
| `Sections.LookupCompletes` | ns-allinone-2.35/cweb/common.c:923-952 | a complete name that is accepted is from then on the full name of its section |
| `Sections.AcceptedIff` | ns-allinone-2.35/cweb/common.c:910-952 | a lookup gives no message exactly if nothing matches, or one section does and: a shorter name is an abbreviation, any other continues the text, and is equal to it if the text is complete |
| `Sections.LookupEffect` | ns-allinone-2.35/cweb/common.c:914-952 | an accepted name that is shorter than the text at most shortens the key; any other becomes the text, complete unless it is an abbreviation; a name that is not accepted changes nothing |
| `Sections.LookupOther` | ns-allinone-2.35/cweb/common.c:909-957 | a name that matches nothing becomes a new section; one that matches several gives a message and no section |
| `Sections.AbbreviationsAreStable` | ns-allinone-2.35/cweb/common.c:866-957 | over any run of lookups from an empty directory: a name accepted once denotes the same section ever after, and is accepted again as an abbreviation |
| `Sections.CompleteNamesAreStable` | ns-allinone-2.35/cweb/common.c:866-957 | a complete name accepted once is found ever after, without a message and without changing anything |
| `SearchTrees.SearchMatch` | ns-allinone-2.35/cweb/common.c:884-906 | in a search tree of prefix-free keys, the matches are the node and those of its two subtrees |
| `SearchTrees.InsertOrdered` | ns-allinone-2.35/cweb/common.c:839-839 | adding a node below the last one compared keeps the tree in order |
| `SearchTrees.ShortenOrdered` | ns-allinone-2.35/cweb/common.c:932-932 | shortening a key in place keeps the tree in order although no node moves, as long as no other key is comparable |
| `NameDirectories.NameDirectory.constructor` | ns-allinone-2.35/cweb/common.c:315-331 | the empty directory |
| `NameDirectories.NameDirectory.FindMatch` | ns-allinone-2.35/cweb/common.c:881-908 | one path before a match and one in each subtree find the only match, that there is none and where a new node goes, or that there is more than one |
| `NameDirectories.NameDirectory.AddSectionName` | ns-allinone-2.35/cweb/common.c:811-840 | one more section with this name as key and text; all others as before |
| `NameDirectories.NameDirectory.ExtendSectionName` | ns-allinone-2.35/cweb/common.c:842-864 | one more chunk: the name of this section grows by it, every other name is unchanged |
| `NameDirectories.NameDirectory.SetPrefixLength` | ns-allinone-2.35/cweb/common.c:89-90 | the two bytes of the key length, and nothing else |
| `NameDirectories.NameDirectory.ShortenKey` | ns-allinone-2.35/cweb/common.c:932-932 | the key of one section becomes the shorter abbreviation; the tree stays valid |
| `NameDirectories.NameDirectory.SectionNameCmp` | ns-allinone-2.35/cweb/common.c:959-991 | comparing chunk by chunk agrees with comparing the sought name with the concatenated name and whether it is complete; `used` is what is already known |
| `NameDirectories.NameDirectory.SectionLookup` | ns-allinone-2.35/cweb/common.c:866-957 | the search in the tree and the arena is the lookup in the set of all sections: section found, message or not, and all sections afterwards |
| `NameDirectories.NameDirectory.SprintSectionName` | ns-allinone-2.35/cweb/common.c:759-780 | the full name as far as it is known |
| `NameDirectories.NameDirectory.StoreIdentifier` | ns-allinone-2.35/cweb/common.c:709-735 | an identifier in the same arena has its spelling there and disturbs no section |
| `TangleTokens.DecodeEncode` | ns-allinone-2.35/cweb/ctangle.c:1205-1284 | the tokens of a replacement text are read back as they were stored, the state verbatim disambiguating high bytes |
| `TangleTokens.EncodeDecode` | ns-allinone-2.35/cweb/ctangle.c:548-589 | bytes that can be read as tokens are the code of these tokens |
| `TangleTokens.EncodeInjective` | ns-allinone-2.35/cweb/ctangle.c:499-509 | different texts have different bytes |
| `TangleTokens.VerbatimMatters` | ns-allinone-2.35/cweb/ctangle.c:559-561 | without that state, the same bytes mean something else |
| `Tanglers.Tangler.StoreTwoBytes` | ns-allinone-2.35/cweb/ctangle.c:502-509 | the two bytes |
| `Tanglers.Tangler.ScanRepl` | ns-allinone-2.35/cweb/ctangle.c:1205-1284 | a new text with the code of its tokens at the end of the memory |
| `Tanglers.Tangler.AddName` | ns-allinone-2.35/cweb/ctangle.c:490-495 | a new name has no texts; the texts of all others stay |
| `Tanglers.Tangler.ScanMacro` | ns-allinone-2.35/cweb/ctangle.c:671-717 | a macro is a text of no section; no section changes |
| `Tanglers.Tangler.ScanSection` | ns-allinone-2.35/cweb/ctangle.c:1433-1461 | the new text, with its section number in front, becomes the last one of its section; no other section changes |
| `Tanglers.Tangler.PushLevel` | ns-allinone-2.35/cweb/ctangle.c:514-526 | the state saved and the start of the section, or the overflow |
| `Tanglers.Tangler.PopLevel` | ns-allinone-2.35/cweb/ctangle.c:531-542 | the next text of the section, or the level below; `cur_section` stays when nothing is below |
| `Tanglers.Tangler.EndText` | ns-allinone-2.35/cweb/ctangle.c:552-557 | the end of a text: the closing comment, also at the end of text 0 |
| `Tanglers.Tangler.Round` | ns-allinone-2.35/cweb/ctangle.c:551-588 | one turn of `get_output` is the turn of the machine, also in what it writes |
| `Tanglers.Tangler.GetOutput` | ns-allinone-2.35/cweb/ctangle.c:547-589 | each call takes from what is to come exactly what it writes, and gets nearer to the end |
| `Tanglers.Tangler.OutputDefs` | ns-allinone-2.35/cweb/ctangle.c:682-717 | all macro definitions in order, and the interrupted state is back afterwards |
| `Tanglers.Tangler.WriteFile` | ns-allinone-2.35/cweb/ctangle.c:663-669 | a file for a section that has texts, or the unnamed section after the comment for the end of the section left over |
| `Tanglers.Tangler.PhaseTwo` | ns-allinone-2.35/cweb/ctangle.c:609-677 | all that is written to all files, for any list of files; whether it comes to an end, to a fatal error or to neither; and in that case the state that is never left |
| `TangleExpansion.TextExpands` | ns-allinone-2.35/cweb/ctangle.c:547-589 | what the stack machine gives from the start of a text is the recursive expansion of the rest of its section, each text closed with its number |
| `TangleExpansion.ExpandsIff` | ns-allinone-2.35/cweb/ctangle.c:514-526 | a section can be expanded exactly if everything that it mentions can, one level lower |
| `TangleExpansion.OverflowsIff` | ns-allinone-2.35/cweb/ctangle.c:518-518 | a section can be expanded exactly if no way down from it is too long for the stack, and no macro is at fault or `@h` is not reached |
| `TangleExpansion.CirclesOverflow` | ns-allinone-2.35/cweb/ctangle.c:518-518 | sections that name each other in a circle overflow a stack of any size |
| `TangleExpansion.SectionNests` | ns-allinone-2.35/cweb/ctangle.c:552-588 | in an expansion the comments with section numbers nest like parentheses, also when it is cut off |
| `TangleMachine.ReadStep` | ns-allinone-2.35/cweb/ctangle.c:558-563 | the next token is the first one of what is left of the text |
| `TangleMachine.EndStep` | ns-allinone-2.35/cweb/ctangle.c:535-541 | at the end of a text, the closing comment and the following text or level are what is to come |
| `TangleMachine.EmitStep` | ns-allinone-2.35/cweb/ctangle.c:561-587 | a token that is written, a section without texts, and `@h` are taken from what is to come |
| `TangleMachine.PushStep` | ns-allinone-2.35/cweb/ctangle.c:572-572 | a section name gives nothing by itself; its expansion is to come |
| `TangleRuns.TurnTotal` | ns-allinone-2.35/cweb/ctangle.c:547-589 | a turn takes from what is to come exactly what it sends to the output, and the number of turns left falls |
| `TangleRuns.StuckTurn` | ns-allinone-2.35/cweb/ctangle.c:535-539 | at the end of text 0 without a link, a turn leads back to the same state |
| `TangleRuns.HaltsIff` | ns-allinone-2.35/cweb/ctangle.c:649-649 | the machine comes to an end (or to a fatal error) from every state except that one |
| `TangleRuns.TurnLeft` | ns-allinone-2.35/cweb/ctangle.c:540-541 | no turn changes which section number is left over at the end |
| `TanglePrograms.FileStarts` | ns-allinone-2.35/cweb/ctangle.c:663-668 | what the machine gives from the start of a file, and the number that it leaves |
| `TanglePrograms.PhaseTwoHaltsIff` | ns-allinone-2.35/cweb/ctangle.c:609-677 | phase two comes to an end exactly if no file is begun, before a fatal error, for a section without texts while there is no unnamed section |
| `TanglePrograms.NumbersNestIff` | ns-allinone-2.35/cweb/ctangle.c:609-677 | the comments in everything written nest exactly if no file is begun for a section without texts while there is an unnamed section; then all are closed at the end |
| `TanglePrograms.FinishedNestsIff` | ns-allinone-2.35/cweb/ctangle.c:654-671 | when phase two ends without a fatal error, they nest exactly if the section of every file has texts |
| `TanglePrograms.UndefinedFileBreaks` | ns-allinone-2.35/cweb/ctangle.c:665-668 | a table and a file for which they do not |
| `TangleWriter.WrittenNests` | ns-allinone-2.35/cweb/ctangle.c:754-755 | the output has exactly the section comments of the events, in their order |
| `TangleSpacing.BlankIff` | ns-allinone-2.35/cweb/ctangle.c:735-811 | where blanks are put, for any list of events: before a name or constant exactly if the last thing before it, but for comments and line marks, is a name or the end of a constant; before an asterisk exactly if it is a slash |
| `TangleSpacing.NothingClashes` | ns-allinone-2.35/cweb/ctangle.c:735-811 | in the output two names never stand together, and a slash never directly before an asterisk, unless there is a JOIN or the bound of a string or constant between them |
| `TangleReading.SpellingIsRead` | ns-allinone-2.35/cweb/ctangle.c:1153-1173 | a code of several characters is written with exactly the characters that `get_next` compresses into it |
| `TangleReading.ReadsBackIff` | ns-allinone-2.35/cweb/ctangle.c:780-811 | a stretch of names and signs is read back from the output as it was read from the web, if and only if no sign in it fuses with what follows (`Fuses`) |
| `TangleReading.SumOfIncrement` | ns-allinone-2.35/cweb/ctangle.c:780-781 | `+` before `++` comes out as `++` before `+` |
| `IndexKeys.Uncollated` | ns-allinone-2.35/cweb/cweave.c:892-912 | the only codes without a place in the collating sequence are capital letters and 0177 |
| `IndexKeys.PlainKey` | ns-allinone-2.35/cweb/cweave.c:892-912 | for names without the code 0, the key is the place of each folded character, and 0 after the end |
| `IndexKeys.LessOrSame` | ns-allinone-2.35/cweb/cweave.c:4003-4104 | of two names, exactly one is less, or they have the same key |
| `IndexKeys.LessTransitive` | ns-allinone-2.35/cweb/cweave.c:4003-4104 | the order is transitive |
| `IndexAlphabets.CollatedInOrder` | ns-allinone-2.35/cweb/cweave.c:887-914 | the order of the characters: blank, control codes, punctuation, underscore, letters, digits, codes from 128 up, each group in its own order |
| `IndexAlphabets.LessIsAlphabetical` | ns-allinone-2.35/cweb/cweave.c:4003-4104 | one name is less than another exactly if it is before it in this alphabet at the first place where they differ, the end of a name coming first and capital letters counting as small ones |
| `IndexAlphabets.SameKeyIs` | ns-allinone-2.35/cweb/cweave.c:4003-4104 | two names have the same key exactly if they are the same but for capital letters |
| `IndexOrder.BucketStep` | ns-allinone-2.35/cweb/cweave.c:4090-4096 | putting a name into its bucket keeps the order of stack and buckets |
| `IndexOrder.PushStep` | ns-allinone-2.35/cweb/cweave.c:4145-4152 | pushing a bucket keeps stack entries ordered from top to bottom and lists agreeing on their first characters, also where the depth is `infinity` |
| `IndexOrder.TakeStep` | ns-allinone-2.35/cweb/cweave.c:4087-4098 | so does taking the top list apart |
| `IndexOrder.PrintStep` | ns-allinone-2.35/cweb/cweave.c:4009-4077 | so does printing the top list |
| `IndexSorters.IndexSorter.FillBuckets` | ns-allinone-2.35/cweb/cweave.c:3982-3993 | every cross-referenced name, and no other, is in the bucket of its first character |
| `IndexSorters.IndexSorter.Unbucket` | ns-allinone-2.35/cweb/cweave.c:4139-4154 | all buckets are emptied onto the stack, in order, and the work left does not grow; it fails only at a full stack, and never with fewer names than the stack has entries |
| `IndexSorters.IndexSorter.SplitTop` | ns-allinone-2.35/cweb/cweave.c:4085-4099 | splitting loses no name and leaves less work; it fails only at a full stack |
| `IndexSorters.IndexSorter.PrintTop` | ns-allinone-2.35/cweb/cweave.c:4008-4078 | printing keeps the printed names sorted and leaves less work |
| `IndexSorters.IndexSorter.SortIndex` | ns-allinone-2.35/cweb/cweave.c:3980-4104 | every cross-referenced name is printed exactly once, in order, and the loop ends; it fails only at a full stack, and never if there are fewer cross-referenced names than the stack has entries |
| `IndexAlphabets.PrintedAlphabetically` | ns-allinone-2.35/cweb/cweave.c:3980-4104 | so no name is printed before one that precedes it in the alphabet |
| `ChangeFiles.FailuresIff` | ns-allinone-2.35/cweb/common.c:453-506 | no line fails to match exactly if the lines replaced are those of the change, with a small letter after a leading `@` |
| `ChangeFiles.TrimCuts` | ns-allinone-2.35/cweb/common.c:366-383 | what is cut off a line is blanks at its end, and nothing else |
| `ChangeFiles.ExactCopyFails` | ns-allinone-2.35/cweb/common.c:462-462 | a change that repeats the lines of the web file exactly gives a message exactly if one of them, after the first, starts with `@` and a capital letter |
| `ChangeFiles.CapitalFails` | ns-allinone-2.35/cweb/common.c:462-462 | such a line |
| `ChangeFiles.AllApplied` | ns-allinone-2.35/cweb/common.c:539-605 | if every change is reached, the result is the web file with all of them spliced in, in order; and exactly then none is left |
| `ChangeFiles.QuietIff` | ns-allinone-2.35/cweb/common.c:440-507 | there are no messages exactly if the web file does not end in a change, all lines match in the changes that are reached, and no stray marks are passed |
| `ChangeFiles.CompleteIff` | ns-allinone-2.35/cweb/common.c:673-682 | nothing is left in the change buffer exactly if all changes were made, or the web file ended in one when a blank line was compared |
| `LineReaders.InputLine` | ns-allinone-2.35/cweb/common.c:366-383 | the line without the blanks at its end |
| `LineReaders.LineReader.constructor` | ns-allinone-2.35/cweb/common.c:512-537 | after `reset_input` the lines to come are the merged ones |
| `LineReaders.LineReader.PrimeChangeBuffer` | ns-allinone-2.35/cweb/common.c:388-438 | the first line of the next change is in the change buffer, or the buffer is empty; one message for every stray mark passed |
| `LineReaders.LineReader.CheckChange` | ns-allinone-2.35/cweb/common.c:443-507 | a line that the next change starts with is replaced together with the lines after it; any other is left alone |
| `LineReaders.LineReader.GetLine` | ns-allinone-2.35/cweb/common.c:542-605 | each call takes the next line from the merged ones, and the messages that belong before it |
| `LineReaders.LineReader.CheckComplete` | ns-allinone-2.35/cweb/common.c:673-682 | whether the change buffer is empty, as the merge says |
| `LineReaders.ReadWebFile` | ns-allinone-2.35/cweb/common.c:512-605 | for web files without `@i` and change files made of blocks: lines, messages and the final check are those of the merge |
| `XrefLists.WithXrefDescends` | ns-allinone-2.35/cweb/cweave.c:1009-1026 | the list of an identifier keeps every section once, the latest first, and a definition takes the place of a use in its section |
| `XrefLists.UsesAreListed` | ns-allinone-2.35/cweb/cweave.c:1009-1026 | over any run: the list says exactly in which sections the identifier is used and in which it is defined |
| `XrefLists.PrintedAscending` | ns-allinone-2.35/cweb/cweave.c:4051-4070 | the reversed list has the sections in ascending order |
| `XrefLists.UnderlinedDescendsIff` | ns-allinone-2.35/cweb/cweave.c:2107-2138 | `underline_xref` keeps a list in order exactly if the latest reference not later than the new one is in the same section or is a definition |
| `XrefLists.UnderlinedOutOfOrder` | ns-allinone-2.35/cweb/cweave.c:2123-2123 | a list that comes from two references and is out of order after an underline |
| `XrefLists.DefinitionsStayInOrder` | ns-allinone-2.35/cweb/cweave.c:2107-2138 | a list of definitions always stays in order |
| `XrefLists.UnderlinesKeepOrder` | ns-allinone-2.35/cweb/cweave.c:2107-2138 | over any run of underlines, order is kept if every section has a reference in the list before, or the list has only definitions; and the list then has exactly these sections and definitions more |
| `XrefLists.WithSectionXrefGroups` | ns-allinone-2.35/cweb/cweave.c:1031-1045 | the list of a section name stays grouped, and has at most the one new number more |
| `XrefLists.WithFileFlagGroups` | ns-allinone-2.35/cweb/cweave.c:1050-1060 | the same for the file flag |
| `XrefLists.MentionsAreListed` | ns-allinone-2.35/cweb/cweave.c:1006-1060 | over any run: an optional file flag, then definitions, citations and uses, each ascending, and exactly the numbers mentioned |
| `XrefMemories.XrefMemory.NewXref` | ns-allinone-2.35/cweb/cweave.c:1009-1026 | the linked list of this name becomes that list, those of all others stay |
| `XrefMemories.XrefMemory.NewSectionXref` | ns-allinone-2.35/cweb/cweave.c:1031-1045 | the same for section names |
| `XrefMemories.XrefMemory.SetFileFlag` | ns-allinone-2.35/cweb/cweave.c:1050-1060 | the same for the file flag |
| `XrefMemories.XrefMemory.UnderlineXref` | ns-allinone-2.35/cweb/cweave.c:2107-2138 | moving values along the links equals inserting one number, the others in their old order |
| `XrefMemories.XrefMemory.ReverseXrefs` | ns-allinone-2.35/cweb/cweave.c:4054-4058 | the links of this list are reversed in place, no other list is touched |
| `XrefMemories.XrefMemory.PrintXrefs` | ns-allinone-2.35/cweb/cweave.c:4051-4070 | the numbers are printed in reversed order |

## Findings

Some natural properties fail. The model does what the code does; each failure has its exact condition.

- **An output file for an undefined section breaks the nesting of section comments** (ctangle.c:654-671). `@(f@>` names a
  file even if section `f` is never defined. `cur_section` is not reset between files, and text 0, where reading then starts,
  is empty, so the file begins with the closing comment of whatever section was written last, followed by the unnamed
  section. Exact condition: `TanglePrograms.NumbersNestIff`, `TanglePrograms.FinishedNestsIff`; input:
  `TanglePrograms.UndefinedFileBreaks`. (While `cur_section` is still 0 no such file can be written: with an unnamed section
  the C file comes first, and without one the next finding applies.)
- **If there is no unnamed section either, phase two does not end** (ctangle.c:535-539, 668). Text 0 is linked to itself, so
  `pop_level(1)` leads back to the same state (`TangleRuns.StuckTurn`). Exact condition: `TanglePrograms.PhaseTwoHaltsIff`.
- **A change file that repeats the lines of the web file exactly may be told that they do not match** (common.c:462, 505).
  A capital letter after `@` in a line of the change file is made small before the comparison. Exact condition:
  `ChangeFiles.ExactCopyFails`; input: the line `@A` (`ChangeFiles.CapitalFails`). The first line of a change is not affected.
- **`underline_xref` can put a cross-reference out of order** (cweave.c:2123). The search only stops at definitions, so it
  passes uses in earlier sections. Exact condition for one call: `XrefLists.UnderlinedDescendsIff`; input: a definition in
  section 2, a use in section 3, then a definition in section 5 (`XrefLists.UnderlinedOutOfOrder`). The comment at
  cweave.w:2414-2419 expects the insertion only for identifiers of one letter, whose lists have nothing but definitions; then,
  and also when every section underlined already has a reference, order is kept (`XrefLists.UnderlinesKeepOrder`). But C text
  in a section name, which is parsed only when the name is typeset (cweave.c:3518), may underline an identifier in a section
  in which phase one has not seen it.

- **The parser does not always go back far enough** (cweave.w:2111-2127 says that `d` is so chosen that it does). Exact
  condition for a step: `LeftmostRuns.StepClearIff`; for a run: `LeftmostRuns.LeftmostIff`. The exceptions are `Slips`: 7
  after a tag; 44, 45 and 46 after new_like, and 45 after typedef_like; 63 to 67 after lproc; 64 and 67 after do_like stmt and
  before a semi; 13 after typedef_like decl_head exp; 101 after an exp and before int_like and a comma or lbrace; 111 in four
  contexts; and productions that bring an insert into sight (79, 80, and long ones that do not go back). So `a: b:` is left as
  two tags (`LeftmostRuns.TwoLabels`), and in `typedef int f(int);` the name `f` never becomes a reserved word
  (`LeftmostRuns.FunctionTypedef`), unlike in `typedef int f;`.
- **Five productions are not what the table in prod.w says** (`Grammar.Departs`, `Grammar.Instead`): 8 keeps the exp (which the
  table leaves out), 43 keeps the semicolon, 61 ends with a forced line break where the table has a break_space, 79 and 80 add
  the mark `inserted` and keep the end of the line.
- **CTANGLE drops blanks that C needs between signs** (ctangle.c:780-811). `a + ++b` is written `a+++b`, which is read as
  `a++ + b` (`TangleReading.SumOfIncrement`). Exact condition: `TangleReading.ReadsBackIff`. Only after `=`, between a slash and
  an asterisk, and between names and constants, a blank is put.

## Left out

- Memory limits: the tables of tokens, texts, names, bytes and cross-references are unbounded. The stacks of CTANGLE, CWEAVE
  and the index sort have their limits.
- Lexical analysis in both programs: the parser starts from scraps, CTANGLE from lists of tokens. The conversion of C scraps
  into TeX characters and all TeX and C spelling (`out_name`, comments, `flush_buffer`, `break_out`, translit) are left out;
  names, numbers and `#line` are written as effects with their values.
- `make_underlined` inside productions and all other cross-reference calls of the parser: they change cross-reference lists
  only. `underline_xref` itself is modelled.
- Tracing and progress messages. Error messages about changes are values; other messages are flags.
- `TangleReading.ReadsBackIff`: is about names and signs; strings, constants, comments and JOIN are the bounds of a stretch.
  A digit after a period, and characters that begin a string, a control code or a preprocessor line are not signs.
- `make_underlined` in the documented table (one asterisk), and its examples, are not compared.
- The productions are a table that `Translator` interprets, one entry per production, in the order in which the source tries
  them, rather than a hundred pieces of code.
- The packed form of CWEAVE's tokens and of the two mathness fields: they are datatypes. CTANGLE's packed bytes are modelled.
- The decrement of `pp` at the end of `reduce` and `squash` and the increment at the end of the loop, which cancel.
- `Translators.Translator.Translate`: requires that every scrap has a category and a text that begins inside the token memory,
  as the routines that append scraps make them.
- `TokenOutputs.TokenOutput.OutputC`: takes the nested translation as given; `ParserRuns.TranslateLeavesOuter` says that
  `translate` makes one that it may be given.
- `NameDirectories.NameDirectory.SectionLookup`: requires names no longer than `longest_name`, and complete names that do not
  end in a blank, as the scanners make them. `id_lookup` is modelled only where it stores a new name.
- `IndexSorters.IndexSorter.SortIndex`: requires names that are not empty and do not have the character 0177, which has no
  place in the collating sequence (`IndexKeys.Uncollated`), so that a name would stay in its bucket.
- `LineReaders.ReadWebFile`: requires a change file made of whole blocks with a line that is not blank after `@x`; a file that
  ends inside a block is left out, and so are `@i` (in web files and among new lines), lines that are too long, and the
  marking of changed sections. Files are sequences of lines.
- `Tanglers.Tangler.PhaseTwo`: does not model that a loop without end may also write the same closing comment over and over;
  it says which state is never left, and `TangleRuns.StuckTurn` what each turn there writes.
- Printing of section names and the list of sections of the index; `section_check`.
