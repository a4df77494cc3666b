# libswish3, proved

libswish3 reads XML, HTML and text documents for a search engine: it files the text of a document
under named fields (metanames), cuts it into positioned tokens, and reads its documents from files
or from a stream. This project models five parts of it in Dafny and proves what they promise.

**The SAX machine** (`Sax`, `Directives`, `TagStack`, `NamedBuffer`, with the theorems in
`StackDiscipline`, `Attribution`, `Harvest`, `Foresight`, `Ownership`, `Documents`,
`IncludedBuffers`, `DocumentTexts`, `TagNames`). Opening and closing tags, text and comments drive
three tag stacks, a pending text buffer and a bump flag, and flushes move text into one buffer per
metaname, with a `\3` between texts. `Attribution.Passages` says what a document means, as a reading
of its tree; the main theorem is that running its events and splitting a buffer on `\3` gives the
texts of that metaname, once each, in order, exactly when every passage is served what it is owed.
What a flush adds depends on the stack it finds, and that depends on what comes later in the
document: `Foresight` reads it off the tree and so says for every configuration, `alias_for` and
cascade included, what each buffer holds. `IncludedBuffers` follows documents into those they
include, and `DocumentTexts` reads a list of texts and flushes off any such tree that determines
everything the machine flushes and files. `Ownership` checks that reading against a plain recursion
over the tree, character by character. Closing tags are matched on raw names, so all this rests on a
condition, `Paired`, that is shown to be exact: where it fails the stacks are wrong after the
closing tag.

**The tokenizer** (`Tokenizer`, `TokenList`, with the theorems in `TokenTheorems`, `IncludedWords`,
`DocumentTokens`, `DocumentWords`, `Boundaries`, `Titles`, `LetterCase`, `Characters`). A character
machine with an in-place stripper and a growing list is proved equal to `Tokenizer.Scan`, a
declarative reading of the text; positions, the fixed-point property and the conservation of letters
are proved of that reading. `IncludedWords` follows token lists, `nwords` and reference counts
through recursively included documents; `DocumentTokens` and `DocumentWords` say of every token of a
whole document which run of which text event it comes from, under which metanames, and when two
tokens in a row are neighbours. `LetterCase` and `Characters` say what lower case and word
characters are against alphabets written out.

**UTF-8** (`Utf8`, `Utf8Strings`, `Utf8Convert`, `Utf8Index`, `Utf8Valid`, `Utf8Escape`,
`Utf8Unescape`, `EscapeRoundTrip`, `EscapeNumbers`, `Utf8Literals`). Bytes are `bv8` and characters
`bv32`, so masks, shifts and wrap-around are those of the C code. Encoder, decoders, stepping,
counting, searching, reversal, the validator and the escape pair are proved against the encoding of
one character.

**The headers API** (`Headers`, `HeaderFields`, `HeaderValues`, `AnyCase`, `HeadersApi`,
`StreamTheorems`, `Producers`, `Refusals`). `swish_parse_fh` reads framed documents from one handle.
The handle is a string with a cursor, the process giving up is a result, and the handler keeps what
it was called with.

**Two translators** (`OutputFormat` with `FormatEscapes` and `FormatNumbers`, and `StringList` with
`QuotedWords`, `SortString` and `SortExamples`): output formats compiled into templates, and sort
strings normalised into properties with directions.

Strings in all modules but the UTF-8 ones are `string`, one `char` per byte; a C string is what
comes before the first NUL. Lower-casing of tag names, the values of a search hit and the
configuration's look-ups are parameters. `Numerals` is the one reading of digits, by their places in
a row, that every number in these formats is proved against. A step that would end the process is an
error value.

## Where the code surprises

These are proved as lemmas, each with the exact condition or a concrete input.

- A tag stack pops on the raw name alone, so an element that was not pushed can pop the entry of its
  parent (`StackDiscipline.CloseRestores`, `PrefixesUnpair`).
- Under cascade a metaname with an `alias_for` misses the texts that its own closing tag flushes
  (`Foresight.AliasedShare`, `Documents.AliasedExactly`, `AliasForLosesText`).
- A flush leaves nothing to put a bump behind, so tags keep words apart only where something has
  been buffered since the last flush: `DocumentWords.DocumentNeighbours` has the exact condition,
  `Boundaries` three documents, one of them with the blank between tags that is usual in XML.
- A one-character chunk at the end of the input is kept without stripping
  (`TokenTheorems.ProperExactly`, `LoneUnderscore`).
- `\x` escapes have no fixed number of digits, so a control character can swallow the hex digit
  after it (`EscapeRoundTrip.RoundTripsExactly`); raw bytes above ASCII vanish in `u8_unescape`
  (`EscapeRoundTrip.KeptExactly`).
- `Action` headers are compared over a length of 11 and so are never understood
  (`Headers.ActionNeverRead`); headers after the sixth are passed over
  (`StreamTheorems.DeliveredExactly`); a body of 2 GiB cannot be announced
  (`StreamTheorems.ProducedIsAnnounced`).
- A `\3` in an included document no longer keeps its words apart
  (`IncludedWords.BumpersDoNotTravel`, `IncludedNeighbours`); what it files under a name its parent
  has no buffer for is lost (`DocumentTexts.DocumentPieces`).
- The comment in `swish_stringlist_parse_sort_string` says case is normalised; the lowercased copy
  is freed unused (`SortString.SortStringBlindToCase`, `CaseIsKept`). A property named like a
  direction is taken for one (`SortString.KeysUnderstood`). The loop in `search` adds the last key
  first (`SortString.KeysAdded`).
- The length a minimum word length is compared with counts the NUL (`Characters.Shortest`), and a
  metaname that is a property by its dotted path goes onto the metaname stack by that path
  (`TagNames.PathName`). A Content-Length keeps its low 32 bits (`HeaderValues.FiveAgain`).
- A blank inside `<name >` leaves the `>` in the output (`OutputFormat.PartIsProperty`).

## Model

| member | source | states |
|---|---|---|
| CString.AllWsLen | src/libswish3/string.c:578-590 | true exactly when all of the first `len` bytes are whitespace |
| CString.SkipSpace | src/libswish3/string.c:542-550 | what is left after skipping: a suffix that starts with no blank, and only blanks were skipped |
| CString.TrimEnd | src/libswish3/string.c:558-567 | the longest prefix that does not end in a blank; only blanks are cut off |
| Characters.BlankIs | src/libswish3/string.c:578-590 | the blanks are space, tab, newline, carriage return and the two other feeds, and no other byte |
| NamedBuffers.NamedBuffer.AddBuf | src/libswish3/namedbuffer.c:165-240 | a blank text changes nothing; any other is appended to the named buffer, after the joiner when the buffer is not empty, and no other buffer changes |
| NamedBuffers.AddStrPieces | src/libswish3/namedbuffer.c:179-240 | adding a text to a buffer adds the pieces of the text to the pieces of that buffer and of no other |
| NamedBuffers.TextsJoined | src/libswish3/namedbuffer.c:165-240 | a buffer is byte for byte the texts added to it that are not blank, with one `\3` between each two and none elsewhere; no other buffer changes |
| NamedBuffers.NamedBuffer.Concat | src/libswish3/namedbuffer.c:267-291 | merging another set of buffers appends every buffer of it, joined, to the one of the same name |
| NamedBuffers.MergedPieces | src/libswish3/namedbuffer.c:267-291 | a merged buffer splits to the pieces of the first and then those of the second; what the second holds under a name the first does not have is lost |
| NamedBuffers.MergedJoined | src/libswish3/namedbuffer.c:267-291 | merging keeps the names and puts one `\3` between what was there and what comes, when there is both |
| NamedBuffers.SplitBuffer | bindings/perl/xs_helpers.c:597-626 | the loop over a buffer yields exactly its parts between `\3` bytes that are not blank, in order |
| NamedBuffers.SplitUnsplit | bindings/perl/xs_helpers.c:597-626 | joining the parts of any buffer with `\3` gives the buffer back |
| NamedBuffers.UnsplitSplit | bindings/perl/xs_helpers.c:597-626 | splitting parts that were joined with `\3` gives the parts back when none holds a `\3` |
| NamedBuffers.PiecesJoin | src/libswish3/namedbuffer.c:207-235 | two buffers with a `\3` between them split to the pieces of both, in order |
| TagStacks.TagStack.Flatten | src/libswish3/parser.c:2817-2867 | the names of the stack from the bottom up, then the given one, with the join character between each two |
| TagStacks.TagStack.Push | src/libswish3/parser.c:2939-2979 | one entry more on top, whose context is the flattened stack, and `count` one higher |
| TagStacks.TagStack.Pop | src/libswish3/parser.c:2981-3034 | the head and nothing else comes off, `count` one lower; nothing on an empty stack |
| TagStacks.TagStack.PopOnMatch | src/libswish3/parser.c:3036-3101 | the head comes off exactly when its raw name is the given one |
| TagStacks.PushedConsistent | src/libswish3/parser.c:2939-2979 | a push keeps every context equal to the names below it joined |
| TagStacks.PoppedConsistent | src/libswish3/parser.c:2981-3034 | so does a pop |
| TagStacks.ContextExtends | src/libswish3/parser.c:2817-2867 | every context is the context below it, the join character and its own name |
| Sax.ParserData.BakeTag | src/libswish3/parser.c:540-753 | the XML branch: prefix and case, the reset of `ignore_content` for an undefined tag, and the alias of the tag or else of its dotted path |
| Sax.ParserData.AddToBuffers | src/libswish3/parser.c:770-800 | the buffers a flush adds to, in order: the metaname (or its alias_for), and with cascade every other entry of the stack from the head down |
| Sax.ParserData.FlushBuf | src/libswish3/parser.c:756-808 | a flush moves `meta_buf` to its buffers and to the tokenizer, empties it and leaves the rest alone |
| Sax.ParserData.OpenElement | src/libswish3/parser.c:1095-1193 | an opening tag takes the machine to the state `OpenTag` describes: bump, bake, DOM push, property push, flush and metaname push |
| Sax.ParserData.CloseElement | src/libswish3/parser.c:1195-1250 | a closing tag does the same for pops matched on the raw name, flushing under the popped metaname |
| Sax.ParserData.PopMetaname | src/libswish3/parser.c:1234-1242 | the metaname comes off before the flush, so the flush finds the stack without it |
| Sax.ParserData.BufferCharacters | src/libswish3/parser.c:1255-1296 | text is dropped while ignoring; otherwise appended, after a `\3` when a bump is pending and the buffer is not empty |
| Directives.ReadDirective | src/libswish3/parser.c:1321-1385 | the tests of mycomments: `noindex` or `index` is read exactly from a comment that is that word in any case, with blanks around it and an optional SwishCommand and blanks before it; a blank comment is nothing; any other comment that starts with SwishCommand asks for nothing |
| Directives.DirectiveMeans | src/libswish3/parser.c:1321-1385 | each reading holds if and only if the comment can be cut into those parts |
| Sax.ParserData.HandleComment | src/libswish3/parser.c:1321-1385 | the effect of a comment on `ignore_content` and `bump_word` |
| Sax.ParserData.Parse | src/libswish3/parser.c:832-846 | a whole run of events and the final flush leaves the state that folding `Step` and `EndDocument` gives |
| Sax.RunConcat | src/libswish3/parser.c:1095-1296 | running two event sequences one after the other is running their concatenation |
| StackDiscipline.OpenPushes | src/libswish3/parser.c:1095-1193 | after an opening tag the three stacks are those of one more open element |
| StackDiscipline.CloseRestores | src/libswish3/parser.c:1195-1250 | a closing tag brings the stacks back to before its opening tag if and only if the element is paired: where it is not on a stack, the head of that stack has another raw name |
| StackDiscipline.StacksFollowDocument | src/libswish3/parser.c:1095-1250 | at every point of a well-nested run the DOM stack is the list of open elements, the meta stack the default entry plus the open metanames, and no step gets stuck |
| StackDiscipline.StacksConsistent | src/libswish3/parser.c:1590-1613 | every entry of those three stacks has the context its place calls for |
| StackDiscipline.PlainIsPaired | src/libswish3/parser.c:1095-1250 | with undotted names and no foreign prefixes every element is paired, whatever its case |
| StackDiscipline.PrefixesUnpair | src/libswish3/parser.c:3036-3101 | a prefixed element inside a metaname of the same local name is not paired: the pop by raw name takes the wrong entry |
| TagNames.Prefix | src/libswish3/parser.c:366-376 | `dc:title` is the name of a prefixed element, or `title` when prefixes are to be ignored |
| TagNames.OwnAlias | src/libswish3/parser.c:724-747 | an alias of the name itself comes before one of its dotted path |
| TagNames.PathName | src/libswish3/parser.c:1120-1193 | an element whose path `doc.title` is a property goes onto the property stack, and onto that of the metanames, by its path |
| TagNames.PlainName | src/libswish3/parser.c:1120-1193 | one that is a property by its name goes there by its name, in the context `//title` |
| TagNames.MetaByPath | src/libswish3/parser.c:1120-1193 | an element is a metaname by its name or by its path |
| TagNames.UndefinedEnds | src/libswish3/parser.c:700-718 | a noindex stays in force at the tags of a metaname or an alias and ends at any other |
| Attribution.CharsRead | src/libswish3/parser.c:1255-1296 | one text event moves the machine, seen as a reader of the document, exactly one step |
| Attribution.OpenReads | src/libswish3/parser.c:1095-1193 | an opening tag ends the run of text and files it under the metanames outside the element |
| Attribution.CloseReads | src/libswish3/parser.c:1195-1250 | a closing tag ends the run and files it under the metanames inside the element |
| Attribution.RemarkReads | src/libswish3/parser.c:1321-1385 | an ordinary comment ends the run; the noindex and index comments do not |
| Attribution.RunReads | src/libswish3/parser.c:1095-1296 | by induction over the tree: running its events is reading the document |
| Harvest.TargetsCount | src/libswish3/parser.c:770-800 | how many copies of a text each buffer gets, under every configuration, from the stack that stands at the flush |
| Harvest.ShareOrCopies | src/libswish3/parser.c:786-799 | that is as many as belong there, and one fewer only for a text directly in a metaname with an alias_for, under cascade, when the metaname's own closing tag flushes it |
| Harvest.BuiltPieces | src/libswish3/parser.c:756-808 | the pieces of a buffer are those of the flushes addressed to it, in order |
| Harvest.RunAccounted | src/libswish3/parser.c:756-808 | over every run the buffers are exactly what the flushes so far put there, each flush labelled with the context it had |
| Harvest.EventsBalanced | src/libswish3/parser.c:1095-1250 | the events of a tree leave the list of open elements as it was |
| Harvest.FlushesCarryDocument | src/libswish3/parser.c:756-846 | the texts of all flushes of a document are its passages, in document order, each with its metanames |
| Harvest.PiecesAtOrigins | src/libswish3/parser.c:756-808 | every piece of a buffer is a copy of one passage, whose number is `Origins` |
| Harvest.OriginsAreWanted | src/libswish3/parser.c:756-808 | a buffer takes its pieces from just the passages that belong there, each once and in order, if and only if every passage is served what it is owed |
| Foresight.RunTells | src/libswish3/parser.c:1095-1250 | by induction over the tree: for each passage the machine's flush finds the stack whole exactly when looking ahead in the tree says so |
| Foresight.DocumentSends | src/libswish3/parser.c:756-846 | of a whole document: its flushes send its passages, and a passage finds its stack whole exactly when a metaname opens after it inside the same metaname element or it stands in none |
| Foresight.BufferHoldsItsTexts | src/libswish3/parser.c:756-808 | for every configuration, document and name: buffer `m` holds the passages that belong to `m`, once each and in order, if and only if each is served what it is owed; the texts themselves tell as much unless texts are both missed and doubled |
| Foresight.AliasedShare | src/libswish3/parser.c:786-799 | for `m` with an alias_for: a passage directly in `m` gives buffer `m` one copy for each `m` it lies in, when a metaname opens after it inside that element, and one fewer when the closing tag of `m` flushes it |
| Foresight.ServedWhereNamed | src/libswish3/parser.c:786-799 | under cascade a buffer is served if and only if every passage that names `m` is added to it exactly once |
| Foresight.BufferHoldsServed | src/libswish3/parser.c:756-808 | whatever is missing: where no text is added twice, buffer `m` splits to the texts that reach it, in order |
| Foresight.NearestMetanameOwns | src/libswish3/parser.c:756-808 | without cascade: exactly the texts whose innermost metaname is stored as `m` |
| Ownership.ReadsInk | src/libswish3/parser.c:1255-1385 | reading any part of a document adds the printing characters that no noindex is in force for, each with the metanames it lies in |
| Ownership.PassagesOwnTheInk | src/libswish3/parser.c:1255-1385 | the passages hold the indexed printing characters of a document as a recursion over its tree finds them: none lost, doubled, moved or misfiled |
| Ownership.FlushesOwnTheInk | src/libswish3/parser.c:756-846 | the same of what a whole run of the machine flushes |
| Documents.PlainIsSound | src/libswish3/parser.c:1095-1250 | the conditions of these theorems hold of every document under a plain configuration |
| Documents.CascadeHoldsAllReaching | src/libswish3/parser.c:786-799 | with cascade and no metaname inside itself, whatever is aliased: buffer `m` splits to the texts that reach it |
| Documents.CascadeHoldsAllInside | src/libswish3/parser.c:786-799 | if no alias concerns `m` these are all texts anywhere inside an `m` element; the default buffer, not aliased itself, holds every text |
| Documents.AliasedExactly | src/libswish3/parser.c:786-799 | for a metaname with an alias_for, under cascade: its buffer holds what belongs there if and only if no text directly in it is left for its own closing tag |
| Documents.AliasForLosesText | src/libswish3/parser.c:786-799 | such a document, run: `<a>x<c>y</c>z</a>` with `a` stored as `b` leaves x and y in buffer `a`, and not z |
| Documents.TextsMayCoincide | src/libswish3/parser.c:786-799 | a document that doubles one text and misses an equal one: the buffer looks right although its pieces come from one passage |
| Documents.HarvestMetaname | bindings/perl/xs_helpers.c:597-626 | parser and splitter end to end, for every document, configuration and name: the texts of the passages its pieces come from; the texts of the metaname without cascade, and with it when every passage is served |
| TokenLists.TokenList.AddToken | src/libswish3/tokenizer.c:365-421 | one item more at the next position, the others untouched, one reference more to its metaname |
| TokenLists.TokenList.Reserve | src/libswish3/tokenizer.c:391-411 | the chunked growth always leaves room for one more token |
| TokenLists.CapacityGrows | src/libswish3/tokenizer.c:391-411 | the capacity after any number of adds is above the index of the next write |
| TokenLists.CapacitySteps | src/libswish3/tokenizer.c:391-411 | room for 1024 tokens at a time |
| TokenLists.LaidOutSnoc | src/libswish3/tokenizer.c:365-421 | appending a token keeps the layout of records and buffer |
| TokenLists.PackedSlice | src/libswish3/tokenizer.c:365-421 | every value is its slice of the buffer, a NUL follows, and the next offset is right behind it |
| TokenLists.PackedLength | src/libswish3/tokenizer.c:365-421 | the buffer is as long as all values and their NULs |
| TokenLists.TokenList.GetTokenValue | src/libswish3/tokenizer.c:559-569 | the C string at a token's offset is its value |
| TokenLists.TokenList.Hold | bindings/perl/XS/TokenIterator.xs:16-19 | somebody else takes a reference to a token: the reference of its metaname is then one that the list will not give back |
| TokenLists.TokenList.Release | src/libswish3/tokenizer.c:352-357 | one token less; its metaname loses a reference exactly when nobody else holds the token, and is freed exactly when that leaves none |
| TokenLists.TokenList.Free | src/libswish3/tokenizer.c:343-363 | freeing gives every metaname the references it has from elsewhere, tokens that others hold included; none is freed while others refer to it |
| TokenLists.MetaRefs.GiveBack | src/libswish3/tokenizer.c:455-478 | freeing one token gives back one reference, and the metaname goes when none is left |
| TokenLists.TokenIterator.NextToken | src/libswish3/tokenizer.c:571-587 | the next token and its value, or nothing at the end |
| TokenLists.Drain | src/libswish3/tokenizer.c:571-587 | draining an iterator yields every token once and in order, with value, position, metaname and context |
| Tokenizer.AsciiTables.constructor | src/libswish3/tokenizer.c:103-174 | the three tables say which characters may start, end and make up a word |
| Characters.WordCharIs | src/libswish3/tokenizer.c:103-174 | words are made of the 26 letters in both cases, the ten digits, the apostrophe and the underscore |
| Tokenizer.AsciiTokenizer.StripAsciiChrs | src/libswish3/tokenizer.c:257-317 | stripping in place leaves the token without ignored characters at either end, and its length |
| Tokenizer.AsciiTokenizer.TokenizeAscii | src/libswish3/tokenizer.c:816-970 | the character machine appends exactly the items of the declarative reading `Scan`, at their positions, and returns how many |
| Tokenizer.PendingStops | src/libswish3/tokenizer.c:845-893 | a character outside words finishes the pending chunk |
| Tokenizer.PendingCut | src/libswish3/tokenizer.c:895-950 | a full chunk, or one that ends the input, is cut off where the declarative reading cuts |
| TokenTheorems.TokenPosition | src/libswish3/tokenizer.c:387-387 | the k-th token is a chunk of the run of word characters that begins at byte `RunStart`, and its position is the old one plus k + 1 plus the `\3` bytes of the text before that run |
| TokenTheorems.RunsRise | src/libswish3/tokenizer.c:816-970 | a later token does not come from an earlier run |
| TokenTheorems.KthPosition | src/libswish3/tokenizer.c:387-387 | the same counted in marks: the old position plus k + 1 plus the bumps among the marks before it |
| TokenTheorems.PositionsRise | src/libswish3/tokenizer.c:850-893 | positions rise strictly within a call |
| TokenTheorems.ScanBumps | src/libswish3/tokenizer.c:850-893 | every `\3` moves the position on once |
| TokenTheorems.PositionAfter | src/libswish3/tokenizer.c:850-893 | a call moves the position on by its tokens and its `\3` bytes |
| TokenTheorems.BumperSeparates | src/libswish3/tokenizer.c:850-893 | tokens with a `\3` between them are never adjacent |
| TokenTheorems.ScanProper | src/libswish3/tokenizer.c:257-317 | every token is stripped, lowercase, made of word characters and at most the maximum long; only the last may be a lone unstripped character |
| TokenTheorems.ProperExactly | src/libswish3/tokenizer.c:895-950 | every token is stripped if and only if the text does not end in a run whose last chunk is one character, no letter or digit, at minimum length 1 |
| TokenTheorems.LoneUnderscore | src/libswish3/tokenizer.c:895-950 | such a text: the word of `_` is `_`, of which stripping leaves nothing |
| TokenTheorems.TokenizingIsFixed | src/libswish3/tokenizer.c:816-970 | tokenizing the blank-joined values of any text gives the same values |
| TokenTheorems.WordIsFixed | src/libswish3/tokenizer.c:816-970 | tokenizing one value gives that one token |
| TokenTheorems.NoLetterLost | src/libswish3/tokenizer.c:816-970 | the letters and digits of the tokens are those of the text in lower case, in order |
| LetterCase.LowerText | src/libswish3/tokenizer.c:843-844 | what lower-casing means, against the two alphabets written out: of all texts only the lower-cased one has each capital replaced by the small letter of the same place and everything else as it was |
| LetterCase.TokensAreSmall | src/libswish3/tokenizer.c:843-844 | no token holds a capital |
| LetterCase.TokenLetters | src/libswish3/tokenizer.c:816-970 | at minimum length 1 the letters and digits of the tokens are those of the text one for one, each the small letter of its place in the alphabet |
| LetterCase.HelloIsSmall | src/libswish3/tokenizer.c:843-844 | `Hello` is the one token `hello` |
| Characters.Shortest | src/libswish3/tokenizer.c:257-317 | a word of two or more letters is dropped exactly when it has fewer than the minimum less one, since the length counts the NUL |
| Characters.Single | src/libswish3/tokenizer.c:895-950 | a single letter is dropped when the minimum is above 2, and at the end of the input unless it is 1 |
| Characters.Longest | src/libswish3/tokenizer.c:895-950 | a run longer than the maximum is two tokens, cut after the maximum |
| Characters.Separated | src/libswish3/tokenizer.c:850-893 | `Hello`, byte 3, `World`: two tokens with a bump between, and two parts of a buffer |
| IncludedWords.Document.Tokenize | src/libswish3/parser.c:2761-2788 | flushed text is tokenized and `nwords` stays the number of tokens |
| IncludedWords.Document.Merge | src/libswish3/parser.c:963-988 | all tokens of an included document go to the end of the parent's list, and `nwords` stays right |
| IncludedWords.Adopt | src/libswish3/parser.c:973-983 | the loop that reads one list into the other, one position a token |
| IncludedWords.RunIncluded | src/libswish3/parser.c:990-1072 | after an included document is read, merged and freed, the references of everybody else are as before |
| IncludedWords.Run | src/libswish3/parser.c:2761-2788 | for every nesting of includes: the tokens, the end position, `nwords` and the reference counts |
| IncludedWords.Balance | src/libswish3/tokenizer.c:343-363 | the arithmetic of references over read, merge and free |
| IncludedWords.NoWordLost | src/libswish3/parser.c:963-988 | the words of a document with includes are those of its texts in reading order, to any depth |
| IncludedWords.NoLabelLost | src/libswish3/parser.c:963-988 | nor does including change the metaname or the context of any token, to any depth |
| IncludedWords.WordsRise | src/libswish3/parser.c:963-988 | positions rise strictly through the whole |
| IncludedWords.BumpersDoNotTravel | src/libswish3/parser.c:973-983 | words a `\3` kept apart in their own document stay apart in the parent if and only if a third token stands between them |
| IncludedWords.IncludedNeighbours | src/libswish3/parser.c:973-983 | a document a, `\3`, b: positions 1 and 3 by itself, 1 and 2 when included |
| IncludedBuffers.ProcessXInclude | src/libswish3/parser.c:1032-1061 | what is pending is flushed under the head of the stack, the included document is parsed by itself, and its buffers are merged |
| IncludedBuffers.ParseDocument | src/libswish3/parser.c:990-1072 | a document with all its includes, parsed by the class: the state that the recursion over the tree gives |
| IncludedBuffers.ParsedGathers | src/libswish3/parser.c:963-1072 | the buffer of a metaname, in a document with includes to any depth, splits to the texts told of it: its own and, where each include stands, those of the included document |
| IncludedBuffers.TextsBelong | src/libswish3/parser.c:786-799 | a text comes into buffer `m` as it belongs there, unless it lies directly in `m`, `m` has an alias_for, cascade is on and no metaname and no include follows it inside that element |
| IncludedBuffers.OwnPassages | src/libswish3/parser.c:990-1072 | including leaves a document's own passages as they are: none is cut, moved to another metaname or lost |
| DocumentTokens.TokenStands | src/libswish3/tokenizer.c:387-387 | the k-th token of a whole document, over all flushes and includes: the part and the run it is a chunk of, and its position, k + 1 plus the `\3` bytes of the document's own texts before that run |
| DocumentTokens.PlacesRise | src/libswish3/tokenizer.c:816-970 | tokens come in the order of the parts and of the runs in them |
| DocumentTokens.Neighbours | src/libswish3/tokenizer.c:850-893 | two tokens in a row are neighbours if and only if no `\3` stands in the document's own text between the beginnings of the runs they come from, in one flush or in two |
| DocumentTokens.EndPosition | src/libswish3/tokenizer.c:850-893 | a document ends at its number of tokens plus its `\3` bytes |
| DocumentTexts.DocumentWritten | src/libswish3/parser.c:756-846 | for every document with includes and every configuration: the flushes, their texts, names and order, and all named buffers are those of a list read off the tree, in which a `\3` comes before a text exactly where a tag or ordinary comment stands between and something has been buffered since the last flush |
| DocumentTexts.FinalWritten | src/libswish3/parser.c:756-846 | the same for documents without includes, as the other theorems run them |
| DocumentTexts.DocumentPieces | src/libswish3/parser.c:963-1072 | for every name, the target of an alias_for included: what its buffer splits to, and that it takes the texts of an included document if and only if the configuration has the name or a text that is not blank was filed under it before |
| DocumentTexts.HarvestIncluded | bindings/perl/xs_helpers.c:597-626 | parser, includes and splitter end to end, for any name |
| DocumentWords.DocumentParts | src/libswish3/parser.c:756-808 | the parts the tokenizer gets of a document with includes: own flushes in the order of the machine, included documents where they stand |
| DocumentWords.PartByte | src/libswish3/parser.c:1255-1296 | which text event a byte of a flushed text is from, and that the `\3` bytes before it are the gaps up to that event |
| DocumentWords.TokenSaid | src/libswish3/parser.c:1255-1296 | the text event in which a token begins; its position is k + 1 plus the gaps up to there |
| DocumentWords.TokenNames | src/libswish3/parser.c:802-805 | the metaname of each of the document's own tokens is the innermost metaname open at the text event it begins in, or its alias_for; its context is all the metanames open there, joined |
| DocumentTexts.BitsLabelled | src/libswish3/parser.c:1590-1613 | the texts of such a list carry the metanames they lie in, each flush goes under those of the texts before it, and all of these are in the configuration |
| DocumentWords.DocumentNeighbours | src/libswish3/parser.c:1255-1296 | in every document: two tokens in a row are neighbours if and only if every text event after the one that begins the first, up to and including the one that begins the second, comes after no tag or ordinary comment or finds nothing buffered since the last flush |
| Boundaries.AdjoiningWords | src/libswish3/parser.c:1095-1250 | `<d>a<e>b</e></d>`: a at 1, and b at 2 if `e` is a metaname, else at 3 |
| Boundaries.SpreadWords | src/libswish3/parser.c:1095-1296 | `<d>a<x>c</x> <e>b</e></d>`, only `e` a metaname: c at 3 and b at 5, since the blank took a `\3` before the flush |
| Boundaries.DeeperWords | src/libswish3/parser.c:1095-1250 | `<d>a<e><x>b</x></e></d>`, only `e` a metaname: 1 and 2, the tags of `x` come right after a flush |
| Titles.TitleToken | src/libswish3/parser.c:802-805 | `<title>x</title>`: the token x at 1 with metaname `title` and context `swishdefault/title` |
| Titles.AliasToken | src/libswish3/parser.c:724-747 | `<doc><title>x</title></doc>` with `doc.title` an alias of `t`: metaname `t`, context `swishdefault/t` |
| AnyCase.CommentInAnyCase | src/libswish3/parser.c:1321-1385 | noindex and index in any case, by themselves or after a SwishCommand in any case |
| AnyCase.Comments | src/libswish3/parser.c:1321-1385 | `NOINDEX`, `INDEX` and `SwishCommand NoIndex` |
| Utf8.DecUndoesEnc | src/libswish3/utf8.c:221-224 | decoding by sum and one subtraction undoes encoding for every character below 0x110000 |
| Utf8.EncUndoesDec | src/libswish3/utf8.c:221-224 | encoding undoes decoding for every well-formed 1-4 byte sequence |
| Utf8.EncWellFormed | src/libswish3/utf8.c:403-432 | every encoding is well-formed |
| Utf8.LeadByte | src/libswish3/utf8.c:226-243 | the table of trailing bytes tells the length of every encoding from its lead byte |
| Utf8Literals.Ends | src/libswish3/utf8.c:403-432 | the first and the last character of each length, byte by byte, and that 0x110000 is no character |
| Utf8Literals.Bits | src/libswish3/utf8.c:403-432 | every character in numbers: its digits in base 64, the first with the mark of the length and the others with 0x80 |
| Utf8Literals.LongSequences | src/libswish3/utf8.c:221-243 | what the tables make of the old sequences of five and six bytes |
| Utf8Strings.DecodeUndoesEncode | src/libswish3/utf8.c:296-401 | encoding then decoding any string of characters gives it back |
| Utf8Strings.EncodeUndoesDecode | src/libswish3/utf8.c:296-401 | decoding then encoding any well-formed string gives it back |
| Utf8Strings.EncodeInjective | src/libswish3/utf8.c:356-401 | no two strings encode alike |
| Utf8Strings.WellFormedIsText | src/libswish3/utf8.c:286-295 | every well-formed NUL-terminated string is the text of the characters it decodes to, so what is proved of texts holds of all of them |
| Utf8Strings.AtChar | src/libswish3/utf8.c:435-519 | what stepping through a text meets at each character: its lead byte, its continuation bytes, the next boundary |
| Utf8Convert.CodingSize | src/libswish3/utf8.c:272-283 | exactly the number of bytes the encoding takes |
| Utf8Convert.WcToUtf8 | src/libswish3/utf8.c:403-432 | writes the encoding of one character and no other byte |
| Utf8Convert.ToUtf8 | src/libswish3/utf8.c:356-401 | writes whole encodings of exactly the first `i` characters, stops at the first that does not fit, ends with a NUL when there is room, and touches nothing else |
| Utf8Convert.SumBytes | src/libswish3/utf8.c:319-335 | the fall-through switch sums the bytes as the other decoder does |
| Utf8Convert.ToUcs | src/libswish3/utf8.c:296-342 | decodes the characters that fit, 0-terminated, leaving out one that `srcsz` cuts off |
| Utf8Convert.ConvertAndBack | src/libswish3/utf8.c:272-401 | size, encode, decode: the same characters |
| Utf8Convert.Reverse | src/libswish3/utf8.c:879-922 | for any bytes that `len` does not cut off in a sequence: 0 and the sequences in reverse order if every byte they start with leads one, else 1 |
| Utf8Convert.ReverseOfText | src/libswish3/utf8.c:879-922 | of a text these are its characters in reverse order |
| Utf8Convert.StrayFails | src/libswish3/utf8.c:879-922 | a continuation byte behind a text makes it fail |
| Utf8Convert.ReversedText | src/libswish3/utf8.c:879-922 | the result is well-formed, decodes to the reverse, and reversing again gives the text back |
| Utf8Index.Advance | src/libswish3/utf8.c:503-510 | from one boundary to the next |
| Utf8Index.Retreat | src/libswish3/utf8.c:512-519 | and back: u8_dec undoes u8_inc |
| Utf8Index.NextChar | src/libswish3/utf8.c:484-501 | the character at a boundary and the next boundary |
| Utf8Index.CharOffset | src/libswish3/utf8.c:434-449 | the byte offset of a character, or of the end |
| Utf8Index.CharNum | src/libswish3/utf8.c:451-466 | the number of the first character at or after an offset |
| Utf8Index.NumberOfOffset | src/libswish3/utf8.c:434-466 | the number of a character's offset is the character's number |
| Utf8Index.OffsetOfNumber | src/libswish3/utf8.c:434-466 | the offset of an offset's number is the least boundary at or above it |
| Utf8Index.NumberUnique | src/libswish3/utf8.c:451-466 | an offset has one number |
| Utf8Index.StrChr | src/libswish3/utf8.c:692-712 | the first match, with a character number whose offset is the offset returned; or that there is none |
| Utf8Index.MemChr | src/libswish3/utf8.c:714-743 | the same in a sized buffer that may hold NULs |
| Utf8Index.CodePointIsDec | src/libswish3/string.c:170-195 | weighing the payload of each byte equals one subtraction from their sum, for any 1-4 bytes |
| Utf8Index.CodePointIsNextChar | src/libswish3/string.c:170-195 | swish_utf8_codepoint agrees with u8_nextchar at every character of a text |
| Utf8Valid.IsValid | src/libswish3/utf8.c:814-877 | 1 if and only if the bytes can be cut into shortest-form 1-6 byte sequences; no byte beyond the NUL is read; the shrinking `length` turns no valid string away |
| Utf8Valid.CheckSequence | src/libswish3/utf8.c:835-873 | one sequence: accepted if and only if it is a shortest-form character |
| Utf8Valid.TwoBytesDecide | src/libswish3/utf8.c:840-868 | the overlong tests on two bytes decide shortness for every length |
| Utf8Valid.ValidStep | src/libswish3/utf8.c:824-826 | a valid string can be cut in one way only |
| Utf8Valid.EncodedIsValid | src/libswish3/utf8.c:814-877 | the validator accepts all the encoder writes |
| Utf8Escape.Escape | src/libswish3/utf8.c:666-690 | the escaped text, cut off at the buffer with a NUL, and a result that tells whether it fitted |
| Utf8Escape.PrintAt | src/libswish3/utf8.c:633-664 | snprintf: what fits, a NUL, and the full length |
| Utf8Escape.ValueOfHex | src/libswish3/utf8.c:656-661 | a number printed in hex digits reads as itself |
| EscapeNumbers.PrintedDigit | src/libswish3/utf8.c:656-661 | its digits are capitals: the one at the place of the low four bits in 0123456789ABCDEF |
| Utf8Literals.LetterForms | src/libswish3/utf8.c:633-664 | the letters u8_escape prints for control characters |
| Utf8Literals.NumberForms | src/libswish3/utf8.c:633-664 | which form every other character gets: x with one digit or two, u with four, U with eight, or itself |
| Utf8Literals.Quotation | src/libswish3/utf8.c:666-690 | only a quotation mark depends on the flag |
| Utf8Unescape.ReadEscapeSequence | src/libswish3/utf8.c:540-596 | one escape: the letter escapes, up to 3 octal digits, up to 2, 4 or 8 hex digits, or the character itself |
| Utf8Unescape.Unescape | src/libswish3/utf8.c:601-631 | the unescaped bytes, or as many whole characters of them as fit |
| EscapeNumbers.HexValue | src/libswish3/utf8.c:540-596 | up to eight hex digits in either case are the number they spell by their places in the two rows of digits |
| EscapeNumbers.OctalValue | src/libswish3/utf8.c:540-596 | so are up to three octal ones |
| EscapeNumbers.HexUnescaped | src/libswish3/utf8.c:540-631 | after x, u and U up to 2, 4 and 8 such digits give the encoding of that number, whatever follows |
| EscapeNumbers.OctalUnescaped | src/libswish3/utf8.c:540-631 | so do up to three octal digits by themselves |
| EscapeNumbers.LetterMeans | src/libswish3/utf8.c:540-570 | what each of n, t, r, b, f, v and a stands for |
| EscapeNumbers.LetterUnescaped | src/libswish3/utf8.c:540-631 | and that this is written |
| EscapeNumbers.PlainUnescaped | src/libswish3/utf8.c:540-631 | any other ASCII character after a backslash stands for itself |
| EscapeNumbers.SmallLetters | src/libswish3/utf8.c:598-600 | `\u220e` gives U+220E |
| EscapeRoundTrip.ThereAndBack | src/libswish3/utf8.c:540-690 | for every text, with or without quote escaping: escaping and unescaping merges each one-digit control with a hex digit right after it, and changes nothing else |
| EscapeRoundTrip.RoundTripsExactly | src/libswish3/utf8.c:540-690 | the text comes back if and only if no such pair occurs |
| EscapeRoundTrip.SoftBreak | src/libswish3/utf8.c:656-657 | a text that does not: `\x01` before `A` |
| EscapeRoundTrip.NeverLonger | src/libswish3/string.c:404-418 | unescaping never makes a string longer, so the caller's buffer is enough |
| EscapeRoundTrip.StrEscapeUtf8 | src/libswish3/string.c:378-402 | ten bytes a character and a NUL are enough: nothing is cut off |
| EscapeRoundTrip.StrUnescapeUtf8 | src/libswish3/string.c:404-418 | nothing is cut off here either |
| EscapeRoundTrip.EscapeAndBack | src/libswish3/string.c:378-418 | both callers end to end |
| EscapeRoundTrip.KeptExactly | src/libswish3/utf8.c:601-631 | unescaping any string reads its escapes and keeps the rest if and only if every byte it takes as it stands is ASCII; otherwise the result is shorter |
| EscapeRoundTrip.PlainKeptExactly | src/libswish3/utf8.c:617-620 | a string without a backslash is unchanged if and only if all its bytes are ASCII |
| EscapeRoundTrip.RawBytesLost | src/libswish3/utf8.c:617-620 | of bytes above ASCII alone nothing is left: a signed char becomes no character |
| Headers.PrefixTest | src/libswish3/parser.c:1881-1888 | a test with the length of the name is true exactly for lines that start with the name in any case |
| Headers.LongerTest | src/libswish3/parser.c:2001-2001 | a test longer than the name is true only for the whole line |
| HeaderFields.HeaderIsMeant | src/libswish3/parser.c:1881-1999 | every header of the table sets its own field and no other |
| HeaderFields.AnyCaseIsMeant | src/libswish3/parser.c:1881-1999 | so does one whose name is written in another case |
| HeaderFields.NumbersRead | src/libswish3/parser.c:1881-1908 | Last-Modified, Last-Mtime and Content-Length set their fields to the number they give, in any record |
| AnyCase.CapitalLength | src/libswish3/parser.c:1881-1890 | `CONTENT-LENGTH: 5` |
| HeaderValues.NumberIs | src/libswish3/string.c:63-79 | blanks, one sign or none, and digits up to the first other character are the number they spell in base ten |
| HeaderValues.IntOf | src/libswish3/string.c:63-79 | a number too wide for an int keeps its low 32 bits |
| HeaderValues.TooWide | src/libswish3/string.c:63-79 | one too wide for a long ends the process |
| HeaderValues.FiveAgain | src/libswish3/string.c:63-79 | 4294967301 bytes are announced as 5 |
| HeaderValues.LooseValue | src/libswish3/parser.c:1870-1874 | the value of a header is what comes after the colon and any blanks, or none |
| HeaderValues.NoColon | src/libswish3/parser.c:1870-1873 | a line without a colon ends the process |
| HeaderValues.UnknownName | src/libswish3/parser.c:1881-2018 | a line that starts with none of the names, in no case, changes nothing |
| HeaderFields.LastOfAKind | src/libswish3/parser.c:1848-2030 | of all lines for one field the last one counts; without any the field stays unset |
| Headers.ActionNeverRead | src/libswish3/parser.c:2001-2013 | so the Action header, compared over 11 characters, is never understood |
| Headers.HeadToDocInfo | src/libswish3/parser.c:1848-2030 | the headers read line by line, in the order and with the lengths of the code; a line without a colon ends the process |
| Headers.BufToHead | src/libswish3/parser.c:1767-1846 | the first six lines of the buffer, read without leaving it; the complaint about an empty line never comes up |
| HeadersApi.FileHandle.Gets | src/libswish3/parser.c:2083-2083 | fgets: up to a newline, the size or the end |
| HeadersApi.LineEnd | src/libswish3/parser.c:2083-2083 | where that line ends |
| HeadersApi.FileHandle.Read | src/libswish3/io.c:75-95 | fread: as many bytes as there are |
| HeadersApi.CleanLine | src/libswish3/parser.c:2090-2106 | the line without the blanks around it |
| HeadersApi.CleanIsLine | src/libswish3/parser.c:2090-2106 | what is kept as a header line is one line without a NUL and fits the line buffer |
| Producers.CleanLoose | src/libswish3/parser.c:2090-2106 | any blanks before and behind a line come off, and nothing else |
| Producers.LooseFrame | src/libswish3/parser.c:2083-2116 | blanks around the header lines and on the blank line make no difference to what is read |
| Producers.CrLf | src/libswish3/parser.c:2094-2105 | a message whose lines end in CR LF is read like one whose lines end in LF |
| Producers.OneHeaderIsFew | src/libswish3/parser.c:2108-2116 | one header line is not enough |
| Producers.LongLine | src/libswish3/parser.c:2083-2083 | a line is cut after 2047 bytes |
| HeadersApi.NoNulls | src/libswish3/io.c:40-73 | once there is a NUL every NUL and every `\3` becomes a newline, and no other byte changes |
| Characters.BodyBytes | src/libswish3/io.c:40-73 | a NUL and a byte 3 become newlines; the byte 3 alone stays |
| HeadersApi.ReplaceNulls | src/libswish3/io.c:40-73 | the loop over the bytes read does just that |
| HeadersApi.ReadDocument | src/libswish3/parser.c:2108-2130 | headers, checks and body of one document, or why the process gave up |
| HeadersApi.ParseFh | src/libswish3/parser.c:2048-2216 | the handler gets exactly the documents of the functional reading of the stream, in order; and why the process gave up, if it did |
| StreamTheorems.DoneConcat | src/libswish3/parser.c:2083-2206 | after a stream that ends well, whatever follows is read as a stream of its own |
| StreamTheorems.CutShort | src/libswish3/parser.c:2083-2206 | a stream cut anywhere delivers some of the documents of the whole, each complete and unaltered |
| StreamTheorems.FramedReads | src/libswish3/parser.c:2083-2206 | what happens to two or more header lines, a blank line and any bytes |
| StreamTheorems.DeliveredExactly | src/libswish3/parser.c:2108-2170 | a framed document is delivered whole, with the headers it has, if and only if its first six lines are readable, name a location and give the length of the body; the body may hold anything |
| StreamTheorems.BodyUnchanged | src/libswish3/io.c:40-73 | a body arrives byte for byte if and only if it holds no NUL |
| StreamTheorems.StreamComesBack | src/libswish3/parser.c:2048-2216 | any list of announced documents parses back to exactly those documents, in order |
| StreamTheorems.ProducedIsAnnounced | src/libswish3/string.c:63-79 | the two headers a producer needs are understood if and only if the body is neither empty nor 2 GiB or more, since Content-Length goes through an int |
| StreamTheorems.ProducerAndParser | src/libswish3/parser.c:2048-2216 | any locations and bodies sent with those two headers are what the handler gets |
| Producers.AllArrives | src/libswish3/parser.c:1848-2216 | of any documents sent with six headers the handler gets every field as it was sent: location, time, MIME type, parser, encoding, length and body |
| Refusals.SizedDocument | src/libswish3/docinfo.c:137-147 | what each length comes to: refused as missing, zero, too much to allocate or more than follows, or that many bytes |
| Refusals.BadLength | src/libswish3/docinfo.c:137-147 | 0, -1, other negative numbers, more than what follows and more than a long, written out |
| Refusals.Missing | src/libswish3/docinfo.c:137-147 | no length counts as 0; no location is found first |
| Refusals.LeftOver | src/libswish3/parser.c:2206-2216 | header lines with no blank line after them end in an error |
| StringLists.GetWord | src/libswish3/string.c:914-985 | the next word of a line, quotes and backslashes included, within the word buffer |
| SortString.QuotedWord | src/libswish3/string.c:925-970 | any text on one line, put in quotes with backslashes where they are needed, is read back as one word |
| QuotedWords.Quote | src/libswish3/string.c:925-970 | only the quote that opened a word ends it |
| QuotedWords.Backslash | src/libswish3/string.c:925-970 | in quotes a backslash makes any character an ordinary one; outside it is one itself |
| QuotedWords.LineEnd | src/libswish3/string.c:925-970 | a line end ends a word even in quotes |
| StringLists.StringList.AddString | src/libswish3/string.c:888-900 | one word more, the others kept while the array doubles |
| StringLists.StringList.Terminate | src/libswish3/string.c:876-883 | room for the terminating NULL |
| StringLists.Build | src/libswish3/string.c:846-886 | the words of the first line, terminated |
| SortString.ParseSortString | src/libswish3/string.c:790-844 | the normalised list, or the refusal of an unknown property |
| SortExamples.Typed | src/libswish3/string.c:790-844 | words without quotes, typed with a blank between each two, become that list with `asc` filled in |
| SortExamples.Examples | src/libswish3/string.c:826-834 | `title desc` is title, desc; `title` is title, asc; and two more |
| SortString.NormalisedIsDirected | src/libswish3/string.c:790-844 | for a string without quotes: its words with `asc` filled in, properties and directions alternating |
| SortString.DirectedProps | src/libswish3/string.c:814-838 | every property comes out once, in order |
| SortString.DirectedAlternates | src/libswish3/string.c:814-838 | the list has even length and a direction in every second place |
| SortString.NormalisedTwice | src/libswish3/string.c:790-844 | normalising the blank-joined result once more gives the same list |
| SortString.KeysUnderstood | src/libswish3/string.c:814-838 | keys written out are understood as meant if and only if no key without a direction stands before a property named like one, save a property `asc` with direction `asc` after which the same holds of what is left |
| SortString.SortStringUnderstood | src/libswish3/string.c:790-844 | the same from the written string to the list |
| SortString.DescSwallowed | src/libswish3/string.c:826-834 | such keys: the second property is lost |
| SortString.BlindToCase | src/libswish3/string.c:814-838 | lower-casing a list of words leaves every word its role, property or direction, if and only if no word in a direction's place is a direction only when lower-cased |
| SortString.WordsLower | src/libswish3/string.c:914-985 | the words of a lower-cased line are its words lower-cased, quotes and backslashes included |
| SortString.SortStringBlindToCase | src/libswish3/string.c:800-806 | so of whole sort strings: the exact condition under which lower-casing keeps all roles, and that it then only lower-cases the list |
| SortString.DirectedLower | src/libswish3/string.c:800-806 | and then normalising gives the same list with the properties lower-cased |
| SortString.CaseIsKept | src/libswish3/string.c:800-806 | a string where it is not so: `DESC` is taken for a property |
| SortString.AddSortKeys | src/xapian/swish_xapian.cpp:1040-1045 | the backward loop adds every pair, from the last to the first |
| SortString.KeysAdded | src/xapian/swish_xapian.cpp:1040-1045 | every property once, with its own direction, in reverse order |
| SortExamples.SorterExample | src/xapian/swish_xapian.cpp:1040-1045 | what the sorter gets for such a string |
| OutputFormat.OutputFormat.Build | src/xapian/swish_xapian.cpp:786-858 | compiling succeeds if and only if all names are known and at most 64; the template and the ids are those of the pieces of the format |
| OutputFormat.HexEscape | src/libswish3/string.c:1027-1031 | two hex digits with no third are the character of that number |
| FormatEscapes.LetterEscapes | src/libswish3/string.c:991-1052 | what a backslash and each of a, b, f, n, r, t, v stands for, whatever follows |
| FormatEscapes.PlainEscape | src/libswish3/string.c:991-1052 | any other character but x and 0 stands for itself |
| FormatEscapes.HexEscapes | src/libswish3/string.c:1027-1031 | `x` and any hex digits: the character of the number they spell, modulo 256 |
| FormatEscapes.OctalEscapes | src/libswish3/string.c:1032-1036 | `0` and octal digits: the same |
| FormatNumbers.HexNumber | src/libswish3/string.c:1027-1031 | blanks, one sign or none, 0x or none before the digits; a minus negates and what is too large is the largest number |
| FormatNumbers.OctalNumber | src/libswish3/string.c:1032-1036 | the same without the 0x |
| FormatNumbers.NoNumber | src/libswish3/string.c:1027-1031 | `\x` with no digit after it is a NUL and takes nothing else |
| FormatEscapes.EscapeShows | src/xapian/swish_xapian.cpp:786-858 | a hit shows the control character an escape stands for, whatever follows |
| FormatEscapes.TitleShows | src/xapian/swish_xapian.cpp:786-858 | a title, a tab, `\x41` and a newline: what a hit shows |
| FormatNumbers.TemplateOfLine | src/xapian/swish_xapian.cpp:838-839 | a property is a byte 3 in the template |
| FormatNumbers.BlanksBeforeName | src/xapian/swish_xapian.cpp:800-823 | blanks before a name do not belong to it |
| OutputFormat.PropertyName | src/xapian/swish_xapian.cpp:800-823 | a property name runs to `>` or a blank, which goes with it |
| OutputFormat.RenderHit | src/xapian/swish_xapian.cpp:1066-1088 | the render loop, including the case that it runs out of properties |
| OutputFormat.MarksAreProps | src/xapian/swish_xapian.cpp:838-839 | there are as many placeholders as properties if and only if no literal is a `\3` |
| OutputFormat.RenderMeansExactly | src/xapian/swish_xapian.cpp:786-858 | compiling and rendering gives what the format says, read piece by piece, if and only if it spells no NUL and no `\3` |
| OutputFormat.PartIsProperty | src/xapian/swish_xapian.cpp:800-823 | a closed part `<..>` is its property and nothing more if and only if no blank stands between the start of the name and the `>` |
| OutputFormat.BlankEndsName | src/xapian/swish_xapian.cpp:811-823 | `<name >` leaves its `>` in the output |
| OutputFormat.CompileAndRender | src/xapian/swish_xapian.cpp:786-1088 | both end to end |

## Left out

- The HTML branch of `bake_tag`, class attributes, XML attributes as metanames and the modes for
  undefined tags other than indexing their text; libxml2's tag tables are not part of this model.
- Property buffers: `prop_buf` and what `add_stack_to_prop_buf` does with it. The property stack is
  kept.
- The white-space cleaning of `swish_nb_add_str`, which only property buffers ask for.
- Sax.ParserData.FlushBuf: the text is handed on as a record of the flush; `Tokenizer` and
  `IncludedWords` take it from there.
- `swish_tokenize_utf8` and `strip_utf8_chrs`: they work on wide characters of the locale.
- Tokenizer.AsciiTokenizer.TokenizeAscii: the scratch array has one slot more than the source
  allocates, because a full chunk is given its NUL; inputs are ASCII, and the fixed-point theorems
  are for a minimum word length of 1, the default.
- IncludedBuffers.ParsedGathers: a metaname inside itself under cascade, and names that are no
  metaname; `DocumentTexts.DocumentPieces` has both.
- IncludedBuffers.ParseDocument: finding and opening an included document; one that cannot be read
  is passed over by the code.
- DocumentTokens.TokenStands: of a token that an included document brought, the run it came from
  there; the theorem has it for that document by itself.
- IncludedWords.Run: finding, opening and choosing a parser for an included document; the flush
  before it is one of the texts.
- Utf8Convert.ToUcs: only well-formed texts, for which its comment claims to work. Surrogates are
  characters, as in the code.
- Utf8Convert.Reverse: bytes that `len` cuts off inside a sequence, where the code reads beyond
  `len`.
- Utf8Index.NextChar: only well-formed texts, like the other functions that step through one.
- Utf8Index.CodePointIsNextChar: the length that libxml2 gives `swish_utf8_codepoint` is taken to be
  right.
- `u8_strlen`, `u8_seqlen`, `swish_bytes_in_wchar` and the printing functions of utf8.c.
- Utf8Unescape.Unescape: input that ends in a lone backslash, where the code reads past the NUL.
- EscapeRoundTrip.StrUnescapeUtf8: the same.
- HeadersApi.ParseFh: parsing the body, the extension, MIME type and parser that
  `swish_docinfo_check` fills in, warnings, and the words of the error messages.
- StringLists.GetWord: words longer than the word buffer, where the code warns and writes beyond it.
- StringLists.Build: lines with such a word.
- SortString.ParseSortString: sort strings with such a word.
- `swish_stringlist_merge` and `swish_stringlist_copy`, which do not keep `max`.
- OutputFormat.PropertyName: a `<` without its end, where the code reads past the NUL.
- OutputFormat.CompileAndRender: the same.
- OutputFormat.OutputFormat.Build: a `<` without its end, where the code reads past the NUL; how a
  rank or a time is printed.
- Merging configurations and headers, MIME look-up, compression, the file system, the index itself
  and the command-line programs: no invariant of theirs is deeper than a map update.
- Memory allocation, except where a size is what is proved; debug output and timing.
