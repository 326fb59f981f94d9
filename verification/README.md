# Verified model of a Thrift compiler's core

This project models eight parts of a Thrift compiler in Dafny and proves properties of them.
Run `dafny verify dfyconfig.toml` to verify everything.

- **AST codec** (`Wire`, `Skip`, `Codec`, `CodecLaws`, `AstTable`, `AstTypes`, `AstRecords`). The
  generated code of `parser/k-AST.go` is one template filled in for eighteen record types. The
  template is modelled once, driven by a table of the records' fields (`AstTable`). `Codec` is the
  format by value; `AstTypes` has the Go declarations of the records, apart from the table, and says
  which bytes a value of a Go type is written as; `AstRecords` has the generated methods over objects
  with pointers. The encoding is that of the Apache Thrift Binary Protocol.
- **Include graph** (`IncludeGraph`, `IncludeWire`, `IncludeFarSide`, `IncludeRebuild`,
  `IncludeBytes`). Before a request goes to a plugin, shared includes are replaced by stubs;
  afterwards they are put back, and the receiver rebuilds the graph from the bytes of the codec.
- **Field masks** (`MaskPaths`, `MaskTree`, `MaskTyped`, `MaskLaws`, `MaskFit`, `MaskAnswers`,
  `MaskLists`, `MaskStars`, `MaskTransfer`, `MaskSent`, `MaskSending`, `MaskLosses` by value; `FieldMask`,
  `MaskBuilder`, `MaskSerdes`, `MaskReader` on the heap). Paths build a tree of masks; white lists and black
  lists are questions to the tree; the tree has a serialised form. A path is a sequence of
  steps, each to some places, to every place of a kind (a star), or through a bracket that names
  nothing; a walk is what a value of the type asks for, one place after another.
- **Typedef resolution** (`TypeNames`, `Resolver`, `EnumSearch`). `TypeNames` says what names
  refer to, from the text of the files alone; `Resolver` has the resolver that fills in categories
  in place and the dereferencer that follows aliases on demand; `EnumSearch` is the search for the
  enum of a constant.
- **Required-field bitset** (`Bitset`, `BitsetGen`, `BitsetCodeGen`). The generator emits lines of
  a small language; the language has an interpreter, and the generated program is proved against
  the set of values that were set.
- **Syntax trees** (`TokenTree`, `PegParser`, `PegBound`, `ThriftGrammar`). The token buffer of
  the generated parser, its reduction to a linked tree, and the rules that write tokens and take
  them back, proved against the meaning of the grammar; how deep a text can make the rules nest;
  and the grammar of Thrift itself. Where parser/thrift.peg and the generated parser differ
  (annotations behind a struct), the generated one is modelled.
- **Thrift texts** (`PegRules`, `PegTexts`, `ThriftShapes`, `ThriftBlanks`, `ThriftLexemes`,
  `ThriftPages`, `ThriftTexts`, `ThriftFields`, `ThriftDocuments`, `ThriftPrinter`). What the
  grammar says of texts: whatever blanks, line breaks and comments stand between the words of a
  document, it is read to its end and its tree is that of the document, and so parsing what was
  printed gives the document back. Documents have headers, constants, typedefs, enums, services,
  structs, unions and exceptions, with annotations, default values and everything else that the
  grammar has a rule for. The leaves of the tree are the texts that the parser takes from it.
- **Struct padding** (`Align`). The padding arithmetic, the reordering of fields and its
  optimality.

Every in-place operation is a method on the heap whose contract equates the new state with a
function of the old one; the theorems are about those functions.

Where a statement fails for some inputs, the exact condition is proved:

- a record comes back unchanged from the codec if and only if it is canonical
  (`CodecLaws.UnchangedIffCanonical`);
- decompressing panics if and only if some stub below the root is missing from the map
  (`IncludeGraph.DecompressThriftInclude`);
- a white list of one path, stars included, passes exactly the walks that agree with it as far as
  both go if and only if masks support the types on its way (`MaskStars.OneWhite`); a list of paths
  passes exactly the walks that agree with some path if and only if no bracket that names nothing
  takes back what an earlier path allowed and no path comes to a field whose type is a union or an
  exception (`MaskAnswers.WhiteList`), for lists in which nothing was named at a place before a star
  came there; `MaskStars.StarForgets` is a list in which something was, and is forgotten,
  `MaskLists.EmptyBracketTakesBack` and `MaskLists.UnionIsRejected` are lists that fail otherwise;
- a black list rejects exactly the walks that go through the end of some path, and those that go on
  behind it where it ends with a star, if and only if the root is named, nothing goes on where a path
  ends, something goes on at every other place that a path comes to, and none of these places is of
  such a type (`MaskAnswers.BlackList`, `MaskStars.OneBlack`); `MaskStars.StarPassesNodes` shows that
  a star at the end passes the elements themselves, `MaskLists.EmptyBracketRejects` is a list for
  which it does not hold;
- a mask from any accepted list, all stars included, keeps its answers when it is written and read,
  panics included, if and only if it survives (`MaskSent.TransferKeepsMeaning`,
  `MaskSent.SentList`), both for everything that can be asked and for what a value of a type asks:
  no black-list mask that covers everything hides a dead mask below it, no mask comes to cover
  everything, and what passes because something is below it still has something below.
  `MaskLosses.StarKeyIsLost` (the key `*` of a string map is written as a star is) and
  `MaskLosses.AllFieldsAreLost` (`$.*` on a struct whose first field is a union) are masks that do
  not survive. For masks made from paths without a star for all fields this is a condition on the
  paths (`MaskSending.SentMask`);
- a list of paths is accepted if and only if the root is named first and every path is accepted
  behind the ones before it (`MaskLists.AcceptedLists`); when its brackets name something, a path is
  accepted behind others if and only if none of them ends or has a star on its way
  (`MaskLists.AcceptsNaming`);
- asking a mask for a field panics if and only if the mask has a type, does not cover everything,
  and has no field map or the id is negative (`FieldMasks.Ask`); no walk panics if and only if the
  mask is calm, which it is for walks that fit the types unless a star stands for all fields of a
  struct (`MaskSent.ListIsSafe`); `MaskLosses.StaleWalkPanics` is a list with such a star;
- filling a mask panics if and only if a negative field id comes before anything that is refused
  (`MaskReader.TransferFrom`);
- the search for the enum of a constant ends if and only if the chain of aliases does
  (`EnumSearch.EnumOfAlias`);
- the text that the parser takes of a number with a fraction is the number if and only if it has no
  exponent (`ThriftTexts.ExponentAlone`): of `1e5` it takes `5`, because the digits of an exponent are
  a captured text inside of the captured text (`ThriftPrinter.ExponentIsLost`). Of a quoted text that ends with two backslashes it
  takes three (`PegTexts.BackslashesAtTheEnd`).

## Model

| member | source | states |
|---|---|---|
| Wire.I16RoundTrip | parser/k-AST.go:1131 | a 16-bit number (a field id) is read back from its big-endian bytes, whatever follows |
| Wire.I32RoundTrip | parser/k-AST.go:1132 | a 32-bit number is read back, negative ones included |
| Wire.I64RoundTrip | parser/k-AST.go:735 | a 64-bit number is read back, negative ones included |
| Wire.StringRoundTrip | parser/k-AST.go:269-275 | a string whose length fits 32 bits is read back and exactly its bytes are used |
| Wire.FieldRoundTrip | parser/k-AST.go:324-334 | a field header gives back its wire type and its id |
| Wire.ListRoundTrip | parser/k-AST.go:2454-2458 | a list header gives back the element type and the size |
| Wire.MapRoundTrip | parser/k-AST.go:2525-2532 | a map header gives back both types and the size |
| Skip.SkipsValue | parser/k-AST.go:405-411 | skipping uses exactly the bytes of any well-formed value, however nested |
| Codec.ReadsRange | parser/k-AST.go:324-422 | decoding any run of encoded fields fills exactly those fields, up to normalisation, and goes on with the rest |
| Codec.ReadsValue | parser/k-AST.go:1149-1203 | every encoded value of every kind decodes to its normal form and uses exactly its bytes |
| Codec.ReadsRecord | parser/k-AST.go:1123-1203 | every encoded record, by mutual induction over records, lists and maps, decodes to its normal form whatever bytes follow |
| Codec.ReadsRecords | parser/k-AST.go:2559-2574 | a list of records decodes element by element, a nil element as a record of initial values |
| Codec.ReadsEntries | parser/k-AST.go:2718-2740 | a map with distinct keys decodes to the same entries |
| CodecLaws.UnchangedIffCanonical | parser/k-AST.go:269-422 | the normal form is the record itself if and only if no unconditional struct, list or element is nil and no unwritten field has a value of its own |
| CodecLaws.CanonicalRoundTrip | parser/k-AST.go:269-422 | a canonical record comes back identical and exactly its bytes are used |
| CodecLaws.SkipsUnknown | parser/k-AST.go:405-411 | one field that matches no case leaves the record as it is |
| CodecLaws.UnknownFieldsAreTransparent | parser/k-AST.go:330-412 | any unknown fields at any field boundaries leave the decoded record unchanged and account exactly for the extra bytes |
| AstTable.AstIsWellFormed | parser/k-AST.go:209-322 | the fields of all eighteen records have distinct ids that fit 16 bits, start with values of their kinds, and optional ones start as nil |
| AstTable.AstRoundTrip | parser/k-AST.go:2442-2750 | the round trip for every record type of the AST, whole files included |
| AstTypes.AstFollows | parser/AST.go:245-1588 | the table that drives the codec follows the Go declarations field by field: the wire type of every field is that of its Go type, for all eighteen records |
| AstTypes.GoFits | parser/AST.go:245-1588 | every record whose fields hold any values of their Go types (64-bit numbers where Go has int64, 32-bit ones for enums) is one that the codec takes |
| AstTypes.ComesBack | parser/k-AST.go:209-735 | every such record is decoded from its encoding with every coded field as it was, whatever bytes follow, so an enum value comes back with all 64 bits |
| AstTypes.NumbersAre | parser/k-AST.go:734-735 | numbers are written big-endian, in four and eight bytes |
| AstTypes.Layout | parser/k-AST.go:269-322 | the bytes in front of fields, strings, lists and maps |
| AstTypes.EncodingIsStruct | parser/k-AST.go:269-735 | the encoding of such a record is a struct of the protocol: for each field the number of the wire type of its Go type, the id and the value in that type, then a zero; it is skipped as a whole |
| AstRecords.Record.BLength | parser/k-AST.go:209-258 | the predicted length is the length of the encoding, for every object graph |
| AstRecords.Record.CellLength | parser/k-AST.go:209-258 | the same for one field, with its loops over lists and maps |
| AstRecords.Record.FastAppend | parser/k-AST.go:269-322 | the encoding is added behind the buffer and the buffer before it is unchanged |
| AstRecords.Record.AppendRefs | parser/k-AST.go:2454-2458 | the loop over a list of records appends their encodings in order |
| AstRecords.Record.FastWriteNocopy | parser/k-AST.go:262-267 | the buffer overflows exactly when it is shorter than the encoding; otherwise it starts with the encoding and is unchanged behind it |
| AstRecords.Record.FastRead | parser/k-AST.go:324-422 | the loop over field headers succeeds exactly when the format says so, and then the object holds the decoded value and the offset is the number of bytes used |
| AstRecords.Record.ReadCell | parser/k-AST.go:335-404 | decoding one field builds objects that hold the decoded value |
| AstRecords.Record.FillRefs | parser/k-AST.go:2559-2574 | decoding a list of records fills the slice with new objects that hold the decoded values |
| IncludeGraph.VisitFinds | plugin/plugin.go:269-283 | the depth-first walk finds files with different names, all of them files of the graph, behind those seen before |
| IncludeGraph.CompressThriftInclude | plugin/plugin.go:269-283 | the map ends with exactly the visited files, the first include of each keeps its target, and every other visited include holds a stub with its name |
| IncludeGraph.VisitClosed | plugin/plugin.go:269-283 | every include of a visited file names a visited file |
| IncludeGraph.CompressedIsResolvable | plugin/plugin.go:269-299 | after compression the map resolves every stub to the object it replaced |
| IncludeGraph.CollectThriftInclude | plugin/plugin.go:301-308 | the map gains exactly the files that are there in full, found through includes that are not stubs |
| IncludeGraph.DecompressThriftInclude | plugin/plugin.go:285-299 | whatever files the map gives for stubs: it panics if and only if some stub below is missing from the map; otherwise every include below has the target that the map gives, or the one it had, although nothing records what was visited |
| IncludeGraph.Execute | plugin/plugin.go:144-150 | compressing and reverting with the same map never panics and leaves every include of the graph with the object it had before |
| IncludeWire.VisitIsFirstOccurrences | plugin/plugin.go:269-283 | the visited files are the first occurrences in the depth-first listing of all includes |
| IncludeWire.StoresTrim | plugin/plugin.go:269-283 | the compressed objects unfold to the tree that is full at first occurrences and stubs elsewhere |
| IncludeWire.SpanningTree | plugin/plugin.go:265-283 | every reachable file is there in full exactly once, at its first position, every other include is a stub, and the map has exactly the reachable files |
| IncludeFarSide.Decode | parser/k-AST.go:2287-2341 | decoding the tree builds new objects, one copy for each file, linked as the tree says |
| IncludeRebuild.GathersVisit | plugin/plugin.go:301-308 | what the receiver collects from its copies are the copies of exactly the visited files |
| IncludeRebuild.UnfoldFar | plugin/plugin.go:285-308 | the copied graph unfolds to the same tree as the original |
| IncludeRebuild.CopiesMatch | plugin/plugin.go:285-308 | the receiver's graph has one object for every file, linked as the sender's graph is |
| IncludeRebuild.Rebuild | plugin/plugin.go:285-308 | the receiver never panics, its objects store the unfolding of the original graph, and they are the same graph as the sender's, one object for every file |
| IncludeBytes.DecodesTree | parser/k-AST.go:2287-2750 | decoding the encoding of any file gives a file with the same tree of names and includes |
| IncludeBytes.ValueHasTree | parser/k-AST.go:2259-2286 | what objects are encoded as has the tree that they store |
| IncludeBytes.Receive | plugin/plugin.go:265-308 | from the bytes of the compressed files the receiver decodes and rebuilds the graph of the sender, without a panic |
| MaskTree.ResetTwice | fieldmask/mask.go:128-137 | clearing a mask twice is clearing it once |
| MaskTyped.AddIsTyped | fieldmask/mask.go:149-452 | adding any path keeps every mask of the type of its place, or cleared, and behind a star for all fields of a struct of the type of the first field or of the struct; a struct that does not cover everything has a field map |
| MaskTyped.NewIsTyped | fieldmask/mask.go:139-147 | every mask made from any list has that form, and without stars for all fields of a struct no mask is of another type than its place |
| MaskLaws.OnePlace | fieldmask/mask.go:311-320 | adding the rest of a path behind one more key extends what the mask holds by exactly that key |
| MaskLaws.AddHolds | fieldmask/mask.go:149-452 | any path, bracket stars and a star for all fields at its end included, is accepted if and only if it is accepted behind the paths that the mask holds, and then the mask holds those and the new one, with what a star does to those before |
| MaskLaws.GroupReads | fieldmask/mask.go:260-301 | a bracket reads the same below a mask that covers everything, except that it may then name nothing |
| MaskLaws.AcceptsAgain | fieldmask/mask.go:149-452 | a path that is accepted is accepted again behind copies of itself, unless a star in it has to be the first |
| MaskLaws.AcceptsEach | fieldmask/mask.go:260-320 | naming a place twice in one bracket makes no difference |
| MaskPaths.PathOfField | fieldmask/mask.go:173-238 | the path to the id of a field, taken as 32 bits, or to its name, if no other field has it, goes to that field and nowhere else |
| MaskPaths.PathOfKeys | fieldmask/mask.go:240-320 | the path to some elements or keys, with commas between them, goes to exactly those |
| MaskPaths.PathOfAll | fieldmask/mask.go:284-287 | `[*]` and `{*}` go to all of them |
| MaskFit.AddFits | fieldmask/mask.go:149-452 | an accepted path, stars included, goes to places of the type only, wherever it leads |
| MaskAnswers.WhiteList | fieldmask/mask.go:459-509 | for every accepted list, bracket stars and stars for all fields at the end of a path included, in which nothing was named where a star came later: every walk passes exactly when some path agrees with it as far as both go, a star agreeing with every place, if and only if no bracket that names nothing takes something back and no path comes to a place of an unsupported type |
| MaskAnswers.BlackList | fieldmask/mask.go:459-509 | for every such list: every walk is rejected exactly when it goes through the end of some path, or on behind it where the path ends with a star, if and only if the list is sharp: the root is named, nothing goes on where a path ends, and something does at every other place a path comes to, all of supported types |
| MaskAnswers.UntypedPasses | fieldmask/mask.go:475-509 | a list of empty paths, or a root of an unsupported type, leaves a mask that passes everything |
| MaskLists.AcceptedLists | fieldmask/mask.go:139-147 | a list, stars included, is accepted if and only if the root is named first and every path is accepted behind the ones before it; at a root of an unsupported type only the root is accepted |
| MaskLists.AcceptsNaming | fieldmask/mask.go:149-452 | a path whose brackets name something is accepted exactly when no path that is there ends or has a star on its way |
| MaskLists.NamingTakesNothing | fieldmask/mask.go:260-309 | a list whose brackets name something and whose places are of supported types takes nothing back |
| MaskLists.SharpNaming | fieldmask/mask.go:459-472 | such a list is sharp if and only if no path ends on the way of another one |
| MaskLists.EmptyBracketTakesBack | fieldmask/mask.go:260-309 | the white list `$.nodes`, `$.nodes[,].nodes` rejects a walk that its first path is a prefix of |
| MaskLists.EmptyBracketRejects | fieldmask/mask.go:260-309 | the black list `$.nodes[,]` rejects the nodes, which no path covers |
| MaskLists.UnionIsRejected | fieldmask/mask.go:227-236 | the white list `$.result` rejects that field when its type is a union |
| MaskStars.OneWhite | fieldmask/mask.go:149-509 | for one path, with any brackets and stars, one for all fields at its end included: the walks that pass the white list are exactly those that agree with the path as far as both go, if and only if masks support the types of its places |
| MaskStars.OneBlack | fieldmask/mask.go:149-509 | for one path of named places and stars: the walks that the black list rejects are exactly those through its end, and on behind it when it ends with a star, if and only if masks support those types and a star for all fields rejects what is behind them |
| MaskStars.SpeakingIsAccepted | fieldmask/mask.go:149-452 | such a path is accepted |
| MaskStars.StarForgets | fieldmask/mask.go:284-309 | the white list `$.nodes[0]`, `$.nodes[*].name` rejects a walk through the end of its first path: the star forgets it |
| MaskStars.StarPassesNodes | fieldmask/mask.go:459-472 | the black list `$.nodes[*]` passes the nodes and rejects what is asked of them |
| MaskTransfer.Reads | fieldmask/serdes.go:277-358 | reading what was written gives exactly the rebuilt mask: without what is not written, covering everything where nothing is written, and with a star for the key `*`, behind which no child is read |
| MaskTransfer.BreaksIsNone | fieldmask/serdes.go:277-349 | a tree on which filling panics is not filled by value either |
| MaskSent.SameAnswers | fieldmask/serdes.go:122-358 | when a mask survives, the rebuilt one answers every walk like the original, panics included, whoever asks |
| MaskSent.OtherAnswer | fieldmask/serdes.go:122-358 | when it does not, some walk comes to something else |
| MaskSent.TransferKeepsMeaning | fieldmask/serdes.go:122-358 | for every mask of the form that lists make, writing and reading keeps all answers if and only if the mask survives, whether anything at all is asked or a value of some type asks |
| MaskSent.NewIsOrderly | fieldmask/mask.go:108-147 | every accepted list, all stars included, makes a mask of that form |
| MaskSent.OrderlyIsWritable | fieldmask/serdes.go:168-192 | writing a mask of that form never meets a struct without fields |
| MaskSent.SentList | fieldmask/serdes.go:122-358 | for every accepted list writing its mask comes to an end, what is written can be read exactly when the mask has a type, and then all answers are kept if and only if the mask survives |
| MaskSent.ListIsSafe | fieldmask/mask.go:475-509 | for every accepted list no walk panics if and only if the mask is calm, and without stars for all fields of a struct it is, for walks that fit the types |
| MaskSending.SentIsSafe | fieldmask/mask.go:475-509 | without stars for all fields of a struct no walk that fits the types panics on what was sent, whether the mask survives or not |
| MaskLosses.StarKeyIsLost | fieldmask/serdes.go:209-231 | the white list `${"*"}` rejects the key `z`, and what is read of it passes that key |
| MaskLosses.AllFieldsAreLost | fieldmask/mask.go:209-226 | the black list `$.*`, on a struct whose first field is a union, passes that field, and what is read of it rejects it |
| MaskLosses.StaleWalkPanics | fieldmask/mask.go:209-226 | on the mask of `$.*.items[0]` a walk that fits the types asks a list for a field and panics |
| MaskSending.SentMask | fieldmask/serdes.go:122-358 | the mask of a list, bracket stars included, keeps all answers if and only if the list is sendable, a condition on its paths |
| MaskSending.SendableNaming | fieldmask/serdes.go:122-358 | when brackets name something, types are supported and the key `*` does not occur, every white list is sendable, and a black list is exactly when it is sharp |
| FieldMasks.FieldMask.SetKid | fieldmask/storage.go:54-217 | the mask at a place is made or gets a type again, in the array or a map, and nothing else changes |
| FieldMasks.FieldMask.PutField | fieldmask/storage.go:54-95 | a small id goes to the array and any other to the map, and every other place keeps its mask |
| FieldMasks.FieldMask.HasChildIsAbs | fieldmask/mask.go:459-461 | the containers are there exactly when there is something below |
| FieldMasks.FieldMask.Reset | fieldmask/mask.go:128-137 | clearing in place is clearing by value, recursively, and keeps the mask of all elements |
| FieldMasks.FieldMask.ResetFields | fieldmask/storage.go:34-45 | clearing both parts of a field map clears every field mask |
| FieldMasks.Ret | fieldmask/mask.go:463-472 | a white list passes masks that exist, a black list passes what is absent or has something below |
| FieldMasks.Ask | fieldmask/mask.go:475-509 | Field, Int and Str panic exactly when the mask has a type, does not cover everything, and is asked for a field without a field map or with a negative id; otherwise the mask and the verdict are those of the mask by value |
| FieldMasks.AskField | fieldmask/mask.go:475-484 | the same for a field id |
| FieldMasks.Walk | fieldmask/mask.go:463-509 | following a walk panics, and passes, exactly when it does by value |
| MaskBuilder.AddPath | fieldmask/mask.go:149-452 | adding a path in place, with all its branches and stars, succeeds exactly when adding it by value does, with that result |
| MaskBuilder.AddField | fieldmask/mask.go:173-238 | the branch for fields: by id, by name or all of them |
| MaskBuilder.ReadBracket | fieldmask/mask.go:260-301 | the loop over a bracket reads the keys, and a star in it takes effect at once |
| MaskBuilder.AddGroup | fieldmask/mask.go:240-443 | the branches for lists and maps |
| MaskBuilder.AddEach | fieldmask/mask.go:311-320 | the rest of the path is added below each key in turn |
| MaskBuilder.CoversAll | fieldmask/mask.go:511-521 | scalars always cover everything, the others when marked |
| MaskBuilder.MakeFieldMask | fieldmask/mask.go:113-147 | a new mask is there exactly when the list is accepted, and is the mask of the list |
| MaskSerdes.Sort | fieldmask/serdes.go:182 | the places in ascending order, all of them and no others |
| MaskSerdes.MarshalRec | fieldmask/serdes.go:122-235 | writing comes to an end exactly when every struct of which something is covered has fields, and writes the live masks below in ascending order |
| MaskSerdes.LiveSlots | fieldmask/serdes.go:168-220 | the places written are exactly those of live masks below of the kind that is asked for |
| MaskReader.TransferFrom | fieldmask/serdes.go:277-349 | filling a mask in place succeeds exactly when filling it by value does, with that result, and panics exactly when a negative field id comes before anything that is refused |
| MaskReader.FromChildren | fieldmask/serdes.go:298-346 | the loops over children, which stop at one whose path is that of a star, be it written for a star or for the key `*` |
| MaskReader.TakeAll | fieldmask/serdes.go:351-358 | a star replaces the mask of all elements |
| TypeNames.TypedefIsFound | parser/AST-extend.go:252-259 | a name registered as a typedef is found among the typedefs |
| TypeNames.SplitsAtLastDot | semantic/split.go:25-34 | a name is split at its last dot, into what is before it and what is behind it |
| TypeNames.PrefixOfPath | semantic/split.go:61-65 | an include is called as its file, without the directory and the extension |
| TypeNames.ExternalName | semantic/semantic.go:264-294 | where no file defines a name twice, a name with a dot refers to the type n of category c of the i-th include if and only if that include is the first that is called as the part before the last dot and defines n, the part behind it, and c is what it defines |
| TypeNames.LocalName | semantic/semantic.go:235-300 | a name without a dot is that of a base type, a map, a list or a set, or refers to category c if and only if the file itself defines it so |
| TypeNames.TypesAreClosed | semantic/semantic.go:101-166 | the types of a file are those of its aliases, constants, fields and functions, with the keys and elements of every container |
| TypeNames.EndIsUnique | semantic/semantic.go:428-471 | the end of a chain of aliases does not depend on how far it is followed |
| TypeNames.Circular | semantic/semantic.go:435-455 | aliases of one file that only lead to one another never end |
| Resolver.Resolver.ResolveType | semantic/semantic.go:235-300 | it succeeds exactly when the type and all its parts are defined, and lists every typedef among them |
| Resolver.Resolver.ResolveExternal | semantic/semantic.go:267-294 | the first include that offers the name decides, and the reference records its index |
| Resolver.Resolver.RegisterNames | semantic/semantic.go:60-98 | it succeeds exactly when no name is defined twice, and registers every definition |
| Resolver.Resolver.ResolveTypedef | semantic/semantic.go:461-471 | the category is taken over once the alias stands for a type that is known |
| Resolver.Resolver.Pass | semantic/semantic.go:436-445 | a pass keeps what has been found, although its own updates are visible to it, and when it leaves all pending, each waits for another pending one |
| Resolver.Resolver.ResolveTypedefs | semantic/semantic.go:428-459 | it ends, it fails exactly when some chain of aliases does not end, in whatever order they are pending, and otherwise every type has the category at the end of its chain |
| Resolver.Hopeless | semantic/semantic.go:446-455 | when all pending ones wait, none of their chains ends |
| Resolver.Resolver.ResolveAST | semantic/semantic.go:101-166 | includes, names, types and aliases in this order; as far as these go it succeeds exactly when the file is good |
| Resolver.ResolveSymbols | semantic/semantic.go:29-36 | for files as parsed, constant values and base services aside, it succeeds exactly when every include resolves, no name is defined twice, every type is defined and every chain of aliases ends; then every type holds the category at the end of its chain, in all files |
| Resolver.WrittenName | semantic/semantic.go:264-294 | in a resolved file a type p.n has the reference to the first include that is called p and defines n, and its category |
| Resolver.OwnName | semantic/semantic.go:235-262 | any other name has no reference and the category that the file defines it with |
| Resolver.SettledType | semantic/semantic.go:475-513 | every type of a resolved file has a chain that ends, in the category stored in the type |
| Resolver.Deref | semantic/semantic.go:475-513 | in resolved files it ends without error at the end of the chain, and the type it returns has the category stored in the type it started from |
| Resolver.ResolveThenDeref | semantic/semantic.go:29-513 | from parsed files, constant values and base services aside, resolution succeeds exactly when the file is good, and then the eager category of every type is the category that following its aliases finds |
| EnumSearch.SearchIsEnd | semantic/semantic.go:307-331 | the search from a type follows as many aliases as the chain has, and finds the enum at its end or nothing |
| EnumSearch.EnumOfAlias | semantic/semantic.go:307-331 | the search for an alias ends if and only if its chain of aliases ends |
| EnumSearch.NeverEnds | semantic/semantic.go:307-331 | aliases that only lead to one another keep it busy for ever |
| Bitset.BitOfOr | generator/fastgo/bitset.go:89-98 | the bits of a union of masks |
| Bitset.FullWord | generator/fastgo/bitset.go:89-98 | a word equals the mask of its first n bits if and only if exactly these are set |
| Bitset.LayoutIsSound | generator/fastgo/bitset.go:72-111 | every index is inside the declared variable, every mask fits the declared Go type, and different values have different places |
| Bitset.DeclaredIsShaped | generator/fastgo/bitset.go:72-82 | the declaration with a type name makes room for all values, in variables of that Go type, and records none |
| Bitset.BitsOfType | generator/fastgo/bitset.go:33-54 | the width that the generator takes for a type name is the number of bits of that Go type, and it knows exactly the unsigned types |
| Bitset.SetRecordsOne | generator/fastgo/bitset.go:101-111 | set-bit code records its value and changes nothing about the others |
| BitsetGen.RunTests | generator/fastgo/bitset.go:127-131 | tests reach the callback of the first value that is not recorded |
| BitsetGen.GuardIsExact | generator/fastgo/bitset.go:123-126 | a guard is false if and only if every value of its word is recorded |
| BitsetGen.ChecksFindFirstMissing | generator/fastgo/bitset.go:114-156 | the guards never change the outcome: the checks reach the lowest-numbered missing value, or fall through when there is none |
| BitsetGen.GeneratedCodeIsCorrect | generator/fastgo/bitset.go:33-156 | from the type name on: declaration, set-bit code for any values in any order and checks together fall through if and only if all values are set, and otherwise reach the lowest-numbered missing one; no index is outside the variable and no constant outside its Go type |
| BitsetCodeGen.BitsValue | generator/fastgo/bitset.go:89-98 | the loop computes the mask of the first n bits, and panics beyond the width |
| BitsetCodeGen.BitsetCodeGen.Add | generator/fastgo/bitset.go:56-63 | values are numbered in the order they are added, and a second one panics |
| BitsetCodeGen.BitsetCodeGen.GenVar | generator/fastgo/bitset.go:72-82 | it writes the declaration, and nothing without values |
| BitsetCodeGen.BitsetCodeGen.GenSetbit | generator/fastgo/bitset.go:101-111 | it writes the set-bit code of the number of the value, and panics for an unknown one |
| BitsetCodeGen.BitsetCodeGen.GenIfNotSet | generator/fastgo/bitset.go:114-156 | its loops write exactly the check code |
| TokenTree.AbsorbTakes | parser/thrift.peg.go:281-285 | a token takes exactly the trees within its span from the stack |
| TokenTree.ReductionInvertsPostOrder | parser/thrift.peg.go:270-293 | reducing the post-order listing of a properly nested tree gives the tree without tokens of zero width, whose listing is that of the tokens of non-zero width |
| TokenTree.Push | parser/thrift.peg.go:276-288 | relinking the nodes in place is one step of the reduction by value |
| TokenTree.NoneShared | parser/thrift.peg.go:276-293 | linked nodes are at least as many as the nodes of the trees they stand for |
| TokenTree.Tokens32.AST | parser/thrift.peg.go:270-293 | for any tokens the linked nodes are the last tree of the reduction, children in source order; what is below a node and what is beside it have no node in common |
| TokenTree.Tokens32.Add | parser/thrift.peg.go:307-314 | a token overwrites the one at an index in use and is appended otherwise |
| PegParser.FuelIsEnough | parser/thrift.peg.go:501-656 | the bound on nesting does not influence a result once it suffices |
| PegParser.MatchesAreNested | parser/thrift.peg.go:470-656 | the trees of a match are properly nested between its ends, inside the buffer |
| PegParser.Parser.Matches | parser/thrift.peg.go:470-656 | the code of an expression succeeds exactly when the grammar says so, moves as far as the grammar says, extends the tokens in use by the listing of the trees, and keeps the tokens before when it fails |
| PegParser.Parser.MatchesMany | parser/thrift.peg.go:509-518 | the loop of a repetition |
| PegParser.Parser.Recognise | parser/thrift.peg.go:456-468 | after a successful parse the buffer holds exactly the listing of the syntax tree |
| PegParser.SyntaxTree | parser/thrift.peg.go:270-468 | parsing and building the tree gives the syntax tree of the grammar, without the rules that matched nothing |
| PegBound.NotDeep | parser/thrift.peg.go:470-656 | without left recursion and without repetition of what may be empty, a text of some length never needs more nesting than a bound computed from that length |
| PegBound.EnoughForText | parser/thrift.peg.go:456-656 | for such a grammar the result of a rule on a text is the same for all larger bounds |
| PegBound.ParseText | parser/thrift.peg.go:270-468 | for such a grammar a text is refused or its syntax tree is built, without a bound as a parameter |
| ThriftGrammar.ThriftIsDescribed | parser/thrift.peg.go:500-4753 | no rule of the Thrift grammar is left-recursive or repeats what may be empty |
| ThriftGrammar.ParseThrift | parser/thrift.peg.go:270-4753 | every text is refused or has its syntax tree built, and no bound on nesting is reached |
| PegRules.OrFirst | parser/thrift.peg.go:501-503 | the first alternative that matches is taken |
| PegRules.OrSecond | parser/thrift.peg.go:501-503 | the second one decides when the first fails |
| PegRules.StarGoesOn | parser/thrift.peg.go:509-518 | a repetition takes what it can |
| PegRules.YieldsOne | parser/thrift.peg.go:456-656 | an expression comes to one thing only at a place of a text |
| PegTexts.PegText | parser/parser.go:203-240 | the text of linked nodes, found by recursion over children and siblings, is that of the tree, panics included |
| PegTexts.Runes | parser/parser.go:212-238 | the loop takes a captured text without the backslashes before quotes of its kind |
| PegTexts.BackslashesAtTheEnd | parser/parser.go:214-237 | two backslashes at the end of a text become three |
| ThriftShapes.TextIsFirst | parser/parser.go:203-240 | the text taken from the tree that is built is the first one in its outline |
| ThriftBlanks.CommentMatches | parser/thrift.peg.go:2708-2888 | long comments, line comments and those behind `#` are matched to their ends, and nothing else is a comment |
| ThriftBlanks.SkipGives | parser/thrift.peg.go:2516-2707 | what is skipped are blanks, line breaks and comments, as far as there are any |
| ThriftLexemes.EscapedIsTaken | parser/parser.go:212-238 | a text with its quotes escaped is taken as it was before |
| ThriftLexemes.DoubleGives | parser/thrift.peg.go:1873-1983 | digits, a dot and digits, with a sign or without, are one number |
| ThriftLexemes.DoublePowerGives | parser/thrift.peg.go:1873-2013 | with an exponent they are one number, of which the text of the exponent is taken |
| ThriftLexemes.IntegerIsRead | parser/thrift.peg.go:1719-1872 | decimal numbers and those that begin with `0x` and `0o` are integers, and no numbers with a fraction |
| ThriftTexts.BaseReads | parser/thrift.peg.go:1446-1512 | each of the nine words is a base type |
| ThriftTexts.BaseWordsAreNames | semantic/semantic.go:235-245 | they are the names that the resolver takes for base types, each with its category |
| ThriftTexts.TypeReads | parser/thrift.peg.go:1405-1669 | the words of any type are read as that type, however nested, with its annotations |
| ThriftTexts.WordReads | parser/thrift.peg.go:1670-1718 | a number with a fraction, an integer, a quoted text and a name are each taken for what they are, in the order of the alternatives |
| ThriftTexts.ValueReads | parser/thrift.peg.go:1670-2154 | the words of any constant value are read as that value, lists and maps included |
| ThriftTexts.ExponentAlone | parser/parser.go:511-513 | the text taken of a number with a fraction is what is written if and only if there is no exponent |
| ThriftTexts.NotesPart | parser/thrift.peg.go:2014-2072 | annotations are read where they stand |
| ThriftFields.FieldReads | parser/thrift.peg.go:1052-1265 | the words of a field are read as that field: id, whether it is required, type, name, default value, annotations |
| ThriftDocuments.FunctionReads | parser/thrift.peg.go:1266-1404 | the words of a function are read as that function, with its arguments and what it throws |
| ThriftDocuments.DefinitionReads | parser/thrift.peg.go:695-1051 | the words of a definition are read as that definition, which no alternative before it matches |
| ThriftDocuments.DocumentIsRead | parser/thrift.peg.go:456-4753 | a text that consists of the words of a document, and of blanks, line breaks and comments, is matched to its end by one tree, which is the tree of the document |
| ThriftPrinter.PrintedIsRead | parser/thrift.peg.go:456-4753 | a document printed with any blanks and line breaks between its words, none where words stay apart without, is parsed as that document |
| ThriftPrinter.ExponentIsLost | parser/parser.go:203-513 | `const double X=1e5` is parsed as a constant, of whose value the text `5` is taken |
| Align.LayIsAtLeastSum | generator/golang/align.go:49-66 | in any order the size is at least the sum of the sizes and the unit is the widest one |
| Align.DescendingIsDense | generator/golang/align.go:49-66 | in descending order no field is padded |
| Align.PermutationKeeps | generator/golang/align.go:83-100 | the sum and the widest unit do not depend on the order |
| Align.DescendingIsOptimal | generator/golang/align.go:79-113 | the descending order takes the sum rounded up to the widest unit, which Go gives it as well, and no order takes less in either layout |
| Align.Align.Add | generator/golang/align.go:49-62 | one field more, padded as by value |
| Align.ReorderFields | generator/golang/align.go:79-113 | fields are permuted and none is lost, only when that changes the size, and the struct never grows |

## Left out

- File reading and writing, plugin processes, timeouts, environment variables, templates and the other back ends.
- JSON text, quoting, the caches around serialised masks, and lexing of path strings into tokens; a malformed quote or an integer literal out of range makes the lexer panic and is not a token here.
- Go maps and iteration order: a map of categories is a list of entries with distinct keys, and `sort.Slice` and `sort.Stable` are specified by their results (the comparison in `reorderFields` is not strict, so any descending order is allowed).
- Wrap-around of Go's `uint` and `uint32` counters and positions.
- AstRecords.Record.FastRead: when decoding fails, nothing is said about the fields stored by then.
- Skip.SkipsValue: the nesting limit of the library's skipping routine, which is not part of this model.
- The eighteen generated record types are one template over a table of fields; the getters, setters and copies of the generated code are not modelled.
- IncludeGraph.DecompressThriftInclude: stated for files with different names, none of which begins as that of a stub does, and for maps whose targets do not make a circle of includes, on which the source does not end.
- Includes without a parsed file (a nil reference) in compression, where the source dereferences nil.
- MaskBuilder.AddPath: the cursor that moves down the tree is a recursive call on the mask below, as the source has it for list elements and map keys; paths are sequences of tokens.
- FieldMasks.Ask: Field, Int and Str are one method over places, and ids are integers of any size, where the source has 16 bits for those asked for and 32 for those stored.
- Structs of which a field id is negative or used twice: with a negative one the source panics as soon as a path names the field.
- IncludeFarSide.Decode: it starts from the tree; `IncludeBytes` links the tree to the bytes. A file whose include refers to no file is not in that statement.
- ThriftDocuments.DocumentIsRead: what the AST is built of from the syntax tree (parser/parser.go), but for the texts that are taken from it; and texts in which a name stands that the parser takes for something else: a type called as a word of the language or beginning with `required` or `optional`, a name behind a type called `cpp_type`.
- ThriftShapes.TextIsFirst: a text that is captured at the very beginning of a file, on which taking it panics; in documents a word comes first.
- EnumSearch.EnumOfAlias: files in which a definition has the name of a base type or a container or a name with a dot, which the search reads differently from types; the rest of resolving a constant value.
- MaskAnswers.WhiteList: lists in which something was named at a place before a star came there, which the star forgets, and paths that go on behind a star for all fields of a struct, which is taken for its first field; both are in the model of adding a path, of types and of serialisation. The same holds for MaskAnswers.BlackList; MaskLists.AcceptedLists leaves out only the latter.
- MaskStars.OneBlack: paths with a bracket that names nothing, and the empty path.
- Walks end at a field that the struct does not have and at values of unsupported types, and a map whose keys are neither integers nor strings is asked with an integer.
- Descriptors are values with typedefs nested inside; looking them up in the global registry, and typedefs that are circular, are not modelled.
- GetPath, PathInMask and printing of field masks.
- Resolver.Resolver.ResolveAST: constant values, base services and annotations, which also make the source fail, and the marks for used includes.
- Resolver.ResolveSymbols: the same, and a second resolution after a failed one, which the source reports as a success.
- Resolver.ResolveThenDeref: the same.
- Types that were resolved before and are resolved again after trimming; every file starts as it was parsed.
- PegParser.Parser.Matches: recursion and repetition are bounded by a parameter, and the third verdict says that the bound was reached; for grammars with left recursion or with repetition of what may be empty, where the source does not end, no bound is given; the position of the furthest token for error messages is not modelled.
- Align.DescendingIsOptimal: percentages in the log message.
