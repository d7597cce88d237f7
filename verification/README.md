# Verified core of the compressed-text PostgreSQL fork

This project models, in Dafny, the parts of the repository whose correctness is not visible
from any single function, and proves what those parts are for.

* **Sequitur** (`Grammar`, `SequiturGrammar`, `SequiturRuns`, `SequiturHeap`, `SequiturExpand`,
  `SequiturState`, `SequiturDigrams`, `SequiturSteps`, `SequiturLaws`, `SequiturFactor`,
  `SequiturListing`, `SequiturLog`, `Sequitur`, `DigramTable`, `SequiturTable`). The compressor
  appends characters to a start rule, factors a digram that occurs twice into a rule and inlines a
  rule that is used once. `Sequitur.Compressor`
  follows the C++ code step by step on a memory of linked symbols. Two things are proved of it
  for every input. The memory always holds an acyclic grammar whose start rule derives exactly the
  text read so far. And the two laws of Sequitur hold after every character: no digram occurs
  twice, except where it overlaps itself, and every rule is used at least twice. The second needs
  what the history of the grammar leaves true (`SequiturGrammar`): only the rule of the first
  symbol of a match is ever tested for a single use, and inlining it is never checked for a
  repeated digram, so it has to be shown that no other rule runs short and that the seam is always
  new. The printed listing (`SequiturListing`) has every rule once, and what is printed for a text
  is printed for no other. The compressor sees the digram table as a finite map; `DigramTable.ProbeTable` is the
  open-addressing table with tombstones, proved to behave as that map. `SequiturLog` keeps the
  accesses of a run, and `SequiturTable` plays them on the array: every probe ends while fewer
  symbols were stored than the shortest probe path has slots, which no text of up to 4038
  characters reaches.
* **Rule store** (`RuleStore`, `Archive`). Rules are numbered depth first and flattened to a
  symbol array with an offset table, and restored by a recursive two-pointer loop. `Archive` has
  the main program of the compressor, and a composition of this project's own that puts
  compressor, store and restore together.
* **Run-length text** (`Rle`, `ByteOrder`, `HocoText`). The run-length format, its encoder and
  decoder, and comparison and substring directly on encoded streams.
* **btree_gist variable-length keys** (`GistVarKey`). Node keys are truncated bounds; search
  must still reach every matching value.
* **Bloom index** (`BloomSignature`, `BloomIndex`, `BloomRuns`, `BloomPages`). Signatures and
  their generator; a state machine of any number of inserters, vacuums, cleanups and scans whose
  steps are what the code does under one page lock; and the page code that works in place.
* **amcheck** (`UpdateChains`, `ToastChunks`). The update-chain loops on a heap page and the
  chunk loop of a toasted value, against statements of what they are to find.
* **cube** (`CubeBoxes`). Bounding boxes of mixed dimensions, pruning, distances and the order.
* **hstore** (`HStoreUpgrade`). Telling old from new values and converting in place.

`Wrappers` holds the option type that several modules share.

Where a property one would expect turned out to be false of the code, the code is modelled as it
is, a lemma gives an input that shows the failure, and another lemma gives the exact condition:

* the run-length encoder loses a byte whenever it flushes a literal buffer that a pair of equal
  bytes, or the last two bytes, have filled to 128, and what it compressed cannot be restored then
  (`Rle.RoundTripFails`, `Rle.RoundTrip`);
* a substring from offset zero of an encoded text is read from the wrong byte of the stream, so
  that the first byte of the text acts as a control byte (`HocoText.ZeroOffsetFails`). For slices
  no longer than the chunk which that byte would start, `HocoText.ZeroOffsetIff` has the exact
  condition on the bytes of the stream; a longer slice is right only if its beginning is
  (`HocoText.ZeroOffsetOnlyIf`), and is given by what the stream spells (`HocoText.ZeroOffset`);
* splitting an inner page of variable-length keys can hide a matching value from a search. For one
  split and one entry `GistVarKey.SplitHarmlessIff` has the exact condition on the two keys; for a
  whole tree `GistVarKey.SearchIsExactIff` says that searches are exact if and only if the bounds
  of every key reach the values below it. That keys built by unions and splits do so is proved
  when every split below the last one keeps its entries and the last one is harmless (`Fit`,
  `GistVarKey.NeverPruned`), which leaf pages always are (`GistVarKey.LeafSplitIsKept`); the
  input is `GistVarKey.InnerSplitLosesValue`;
* two of the 2^32 seeds stop the signature generator (`BloomSignature.SomeHashIsUndefined`,
  `BloomSignature.BitInSignature`);
* tuples that are each other's next version pass all checks of update chains
  (`UpdateChains.CircleIsNotReported`); the line pointers on such circles are exactly those that
  no chain from a start leads to (`UpdateChains.CircularIff`);
* a contained-by search on cubes can be pruned above a match (`CubeBoxes.ContainedByIsPruned`,
  `CubeBoxes.ContainedByIff`);
* the comparison of cubes that a B-tree index sorts by runs in a circle when dimensions are mixed
  (`CubeBoxes.OrderIsCircular`, `CubeBoxes.TransitiveIff`);
* a short old hstore whose first value is null but has a large length field is taken for a new
  one (`HStoreUpgrade.FastTrackMisreadsOne`, `HStoreUpgrade.FastTrackMisreads`).

The comment on triples in `join` says that of two overlapping digrams the second is recorded; the
code records the first, and the model and the proofs follow the code.

Integers of the source are modelled as unbounded integers where their width cannot matter, and
with explicit wrap-around or explicit bounds where it can (signed characters, the 32-bit
generator state, 32-bit sizes, 30-bit positions). Coordinates of cubes are mathematical reals.
Addresses of symbols are natural numbers; a freed address may be handed out again.

## Model

| member | source | states |
|---|---|---|
| `Sequitur.Compressor.Append` | unit-test/sequitur.cc:352-358 | After one more character, with every factoring, reuse and inlining it sets off, the start rule stands for the text so far plus that character, every older rule still alive stands for the same text as before, no digram occurs twice except where it overlaps itself, and every rule is used at least twice |
| `Sequitur.Compressor.Compress` | unit-test/sequitur.cc:345-358 | For every input the grammar left behind is acyclic, its start rule expands to exactly the characters read, up to the first one that a signed char cannot tell from end of file, no digram in it occurs twice except where it overlaps itself, every rule but the start rule is used at least twice, and at most 33 symbols were stored in the digram table for each character |
| `Sequitur.Compressor.constructor` | unit-test/sequitur.cc:167-179 | The empty start rule satisfies every invariant and both laws and stands for the empty text |
| `Sequitur.Compressor.Check` | unit-test/sequitur.cc:152-162 | Finds a digram exactly when it is recorded elsewhere, otherwise records it and changes nothing else; a digram that is found is matched, or overlaps the recorded one and needs nothing, and digrams are again unique and recorded; never makes the start rule longer |
| `Sequitur.Compressor.Match` | unit-test/sequitur.cc:226-258 | Keeps all invariants and the text of every surviving rule, makes the start rule strictly shorter, which is why the recursion ends, and leaves digrams unique and recorded and no rule of its own with a single use |
| `Sequitur.Compressor.Reuse` | unit-test/sequitur.cc:230-234 | Replacing the digram by the rule whose whole body it is keeps meaning, counts and links, and whatever the new digram at the end sets off leaves digrams unique and at most the rule of the first symbol a use short |
| `Sequitur.Compressor.Factor` | unit-test/sequitur.cc:235-253 | A new rule takes the place of both occurrences; meaning, counts and links are kept, all digrams are unique and recorded, and at most the rule of the first symbol is a use short |
| `Sequitur.Compressor.Substitute` | unit-test/sequitur.cc:212-222 | A digram becomes one symbol and both new digrams are checked; for a new rule neither is found, for a rule used again the law of digrams holds after whatever the check sets off |
| `Sequitur.Compressor.Replace` | unit-test/sequitur.cc:212-219 | Two deletions and one insertion replace exactly the digram; every other digram stays recorded, the table has no entry at either new digram, and the entries of runs of equal symbols elsewhere are left alone |
| `Sequitur.Compressor.Expand` | unit-test/sequitur.cc:192-208 | The only use of a rule is replaced by the body of the rule: links, owners, counts and the recorded seam; no digram is forgotten but those of the rule that is gone |
| `Sequitur.Compressor.InsertAfter` | unit-test/sequitur.cc:114-117 | The new symbol stands at its place in the ring of its rule, all invariants hold, and neither new digram is recorded |
| `Sequitur.Compressor.NewRule` | unit-test/sequitur.cc:173-179 | A rule with a guard that points to itself and no uses |
| `Sequitur.Compressor.ReadRule` | unit-test/sequitur.cc:300-328 | Walking from the guard to the guard reads exactly the symbols of the rule and ends |
| `Sequitur.Compressor.Print` | unit-test/sequitur.cc:331-343 | Every rule is listed once, the start rule first; a rule is shown by the number of its line, numbers are given in the order in which rules are first met, and the array, which has one slot per rule, is never overrun |
| `Sequitur.Compressor.PrintRule` | unit-test/sequitur.cc:300-329 | The line shows exactly the symbols of the rule; a rule is taken as met before exactly when the slot of its number holds it, and otherwise gets the next number |
| `SequiturListing.AllAreMet` | unit-test/sequitur.cc:331-343 | As every rule is used, from a rule of higher rank, following uses from the start rule meets every rule |
| `SequiturListing.ListingDerives` | unit-test/sequitur.cc:331-343 | The listing, read as a grammar over the numbers, derives the text of the start rule |
| `SequiturListing.OutputsDiffer` | unit-test/sequitur.cc:300-343 | What is printed determines the listing: the escapes and the spaces make tokens, lines and numbers unambiguous for all characters |
| `SequiturListing.PrintedAlike` | unit-test/sequitur.cc:300-343 | No print stands for two texts: two files that are printed alike are equal, up to the first byte that reads as their end |
| `Archive.CompressAndPrint` | unit-test/sequitur.cc:345-363 | The main program: what it prints lists a grammar over line numbers that derives exactly the characters read |
| `Sequitur.Compressor.FactorFirst` | unit-test/sequitur.cc:235-250 | The new rule is made and put in for the recorded occurrence; the occurrence at the end is left as the only other place of the digram |
| `Sequitur.Compressor.MakePair` | unit-test/sequitur.cc:237-248 | A rule with copies of two symbols: nothing else changes, no use yet, no digram forgotten |
| `Sequitur.Compressor.FreeRuleOf` | unit-test/sequitur.cc:198-201 | Freeing the rule, dropping the entry of its last use and zeroing the key of that symbol leave the other links, counts and entries alone |
| `SequiturFactor.LawfulGrammar` | unit-test/sequitur.cc:226-258 | The two laws of Sequitur, digram uniqueness and rule utility, stated of the grammar itself |
| `SequiturFactor.FactoredMatched` | unit-test/sequitur.cc:235-253 | Replacing both occurrences by a new rule leaves digrams unique and recorded, every rule but that of the first symbol with two uses, and the conditions under which that rule can be inlined |
| `SequiturLaws.ReuseFound` | unit-test/sequitur.cc:212-234 | Using a rule again keeps the laws also when the new digram at the end is found and matched in turn, to any depth |
| `SequiturLaws.ReuseQuiet` | unit-test/sequitur.cc:212-234 | Using a rule again keeps the laws when the new digram at the end is new |
| `SequiturFactor.MatchInlined` | unit-test/sequitur.cc:255-257 | Inlining the rule that is left with one use repays the debt: every rule has two uses again and no digram occurs twice |
| `SequiturFactor.MatchKept` | unit-test/sequitur.cc:255-257 | If the count is not one, no rule was left a use short |
| `SequiturLaws.AppendWaits` | unit-test/sequitur.cc:356-357 | A new character at the end leaves only the digram before it to be checked |
| `SequiturLaws.CloseOverlap` | unit-test/sequitur.cc:160-161 | A digram that overlaps its recorded occurrence may be ignored: there is no third one |
| `SequiturLaws.CloseNew` | unit-test/sequitur.cc:152-158 | A digram that is not in the table occurs nowhere else, so recording it restores the law |
| `SequiturGrammar.AppendClear` | unit-test/sequitur.cc:356-357 | Appending a character keeps the seam condition: where a rule is used twice, once near enough to the end of the start rule that this use may yet be matched away, the digram that inlining it at the other use would make occurs only where it overlaps that place |
| `SequiturGrammar.ReuseClear` | unit-test/sequitur.cc:230-234 | Replacing the end of the start rule by a rule that is in use keeps the seam condition |
| `SequiturGrammar.FactorClear` | unit-test/sequitur.cc:235-253 | Factoring a digram into a new rule keeps the seam condition, for the old rules and for the new one |
| `SequiturGrammar.SpliceClear` | unit-test/sequitur.cc:192-208 | Inlining a rule keeps the seam condition, provided the start rule ends in the matched rule or in one whose last symbol is no shorter |
| `SequiturGrammar.FactorSeam` | unit-test/sequitur.cc:235-257 | After factoring, the digram that inlining the first symbol of the new rule makes occurs at most where it overlaps the seam |
| `SequiturGrammar.ReuseSeam` | unit-test/sequitur.cc:230-257 | After using a rule again, the digram that inlining the first symbol of that rule makes occurs at most where it overlaps the seam |
| `SequiturGrammar.FactorQuiet` | unit-test/sequitur.cc:249-250 | The second substitution of a new rule makes a digram that occurs nowhere else, so its check finds nothing |
| `SequiturGrammar.FactorAlone` | unit-test/sequitur.cc:249-252 | After both substitutions the digram is left in the new rule only, so it is right to record it there |
| `SequiturGrammar.FactorKeepsShort` | unit-test/sequitur.cc:235-253 | Factoring makes no new place for a digram of symbols shorter than the end of the start rule |
| `SequiturRuns.NoFourth` | unit-test/sequitur.cc:152-162 | Of three equal symbols at the end the table holds the first pair, so there is no fourth before them |
| `SequiturRuns.FactorRuns` | unit-test/sequitur.cc:75-98 | Factoring leaves every run of three equal symbols near the end of the start rule recorded at its first pair |
| `SequiturRuns.SpliceRuns` | unit-test/sequitur.cc:192-208 | Inlining leaves every run of three equal symbols near the end of the start rule recorded at its first pair |
| `SequiturDigrams.JoinKeepsFiled` | unit-test/sequitur.cc:75-98 | What a join forgets is recorded again if it still occurs: this is what the code for triples is for |
| `SequiturDigrams.AroundNeat` | unit-test/sequitur.cc:103-110 | Deleting a symbol keeps all digrams unique and recorded but the one that the join makes |
| `SequiturDigrams.InsertNeat` | unit-test/sequitur.cc:114-117 | Inserting a symbol keeps all digrams unique and recorded but the two around it |
| `SequiturDigrams.InlinedNeat` | unit-test/sequitur.cc:192-208 | Inlining keeps all digrams unique and recorded if the seam makes no second one |
| `SequiturState.AppendedTexted` | unit-test/sequitur.cc:356 | Appending a character to the start rule appends it to the text of that rule, and every rule still has the text its symbols spell |
| `SequiturState.PairTexted` | unit-test/sequitur.cc:236-248 | A new rule with two copied symbols stands for their texts and changes the text of no other rule |
| `SequiturState.CountsOccurrences` | unit-test/sequitur.cc:60-71 | In every reachable state the count of a rule is the number of places in the grammar that refer to it |
| `SequiturState.GrammarIsProper` | unit-test/sequitur.cc:192-258 | In every reachable grammar references are live, nothing refers to the start rule, every other rule has at least two symbols and a non-empty text |
| `SequiturState.ExpandsToText` | unit-test/sequitur.cc:192-258 | In every reachable state the reference graph is acyclic and every rule expands to the text it stands for |
| `SequiturState.FreshDigrams` | unit-test/sequitur.cc:235-251 | Digrams with a rule that has just been made are never in the table |
| `SequiturState.UnderUsed` | unit-test/sequitur.cc:255-257 | When the first symbol of the matched rule has count one, that symbol is the only use of its rule, so inlining removes nothing that is used elsewhere |
| `SequiturHeap.JoinKeepsTable` | unit-test/sequitur.cc:75-98 | Joining two symbols never leaves a table entry that does not point at its digram |
| `SequiturHeap.DeleteSound` | unit-test/sequitur.cc:103-110 | Deleting a symbol keeps rings, ownership, references, counts and table entries consistent |
| `SequiturHeap.ForgetUnrecords` | unit-test/sequitur.cc:121-125 | After a symbol dropped its digram the table has lost at most the entry that points at this very symbol, and no entry is left that does |
| `SequiturHeap.InsertSound` | unit-test/sequitur.cc:114-117 | Inserting a symbol keeps rings, ownership, references, counts and table entries consistent |
| `SequiturExpand.InlinedSound` | unit-test/sequitur.cc:192-208 | Inlining keeps rings, ownership, references, counts and table entries consistent |
| `SequiturExpand.ZeroedDeletable` | unit-test/sequitur.cc:198-203 | The symbol whose key was set to zero can be deleted without leaving a dangling entry, although a zero key and the NUL character compare equal |
| `Grammar.TextIsExpansion` | unit-test/sequitur.cc:192-258 | A table of texts that satisfies every rule is the full expansion of the grammar |
| `SequiturState.ReplacedTexted` | unit-test/sequitur.cc:212-222 | Replacing a digram by a rule whose symbols are that digram keeps the text of every rule |
| `SequiturState.SplicedTexted` | unit-test/sequitur.cc:192-208 | Putting the symbols of a rule in the place of its only use and freeing it keeps the text of every other rule |
| `Grammar.LengthsRank` | unit-test/sequitur.cc:192-258 | References lead to strictly shorter texts, so no cycle can form |
| `DigramTable.EndsIff` | unit-test/sequitur.cc:272-293 | A probe ends exactly when a slot it can reach is empty or holds the digram |
| `DigramTable.SparseEnds` | unit-test/sequitur.cc:272-293 | A probe ends as long as fewer slots are taken, by symbols or tombstones, than its path has |
| `DigramTable.ReturnedIsFound` | unit-test/sequitur.cc:272-293 | In a table that holds a map, what a probe returns is the slot of the digram exactly when the map has it |
| `DigramTable.PathCovers` | unit-test/sequitur.cc:263-293 | A jump below 17 reaches all 2265539 slots; the jump 17 reaches every slot of its residue class modulo 17 |
| `DigramTable.PathIsInjective` | unit-test/sequitur.cc:263-293 | A probe visits no slot twice before it has visited all it can reach |
| `DigramTable.PathIsOnPath` | unit-test/sequitur.cc:263-293 | The jump 17 never leaves its residue class |
| `DigramTable.ProbeTable.Find` | unit-test/sequitur.cc:272-293 | Returns the slot of the digram if it is recorded, and otherwise the last tombstone before the first empty slot of the probe, or that slot |
| `DigramTable.ProbeTable.Record` | unit-test/sequitur.cc:152-162 | Storing into the slot found adds the digram to the map, keeps every other digram findable and stored once, and takes at most one more slot |
| `DigramTable.ProbeTable.Remove` | unit-test/sequitur.cc:121-125 | A tombstone removes the digram from the map, keeps every other digram findable and takes no slot |
| `DigramTable.RecordHolds` | unit-test/sequitur.cc:152-162 | The probing invariant survives a store |
| `DigramTable.ForgetHolds` | unit-test/sequitur.cc:121-125 | The probing invariant survives a tombstone |
| `DigramTable.HoldsFrame` | unit-test/sequitur.cc:272-293 | The probing invariant depends on the symbols in the table only: it survives every change that leaves these with the digram they are recorded under |
| `SequiturTable.RelinkRefines` | unit-test/sequitur.cc:75-98 | While the compressor relinks, adds or frees symbols, the slots go on holding the table of its model, because no entry is ever left at a symbol whose digram has changed |
| `SequiturTable.StoreMirrors` | unit-test/sequitur.cc:152-162 | Storing a symbol under the machine words of its digram is the map update of the model of the compressor |
| `SequiturTable.DropMirrors` | unit-test/sequitur.cc:121-125 | Removing the machine words of a digram is the removal in the model of the compressor |
| `SequiturTable.AccessServes` | unit-test/sequitur.cc:272-293 | An access whose probe ends finds in the array what the map of the model has, and leaves the array holding the new map |
| `SequiturTable.RunIsPlayed` | unit-test/sequitur.cc:272-293 | The accesses of any run that stores fewer than 133267 symbols can be played on the array of slots from the first to the last: every probe ends, and the array holds the map of the model at each |
| `Archive.CompressOnTable` | unit-test/sequitur.cc:272-358 | Compressing a text of at most 4038 characters ends on the array: all its probes end, find what the finite map of the model holds, and leave the array holding it |
| `RuleStore.Flattener.Discover` | unit-test/tadoc.c:389-425 | Depth-first discovery numbers a rule and everything it uses, keeps the numbers given before, and writes each new rule out with its symbols and offset table |
| `RuleStore.NumberingIsExact` | unit-test/tadoc.c:389-425 | The rules that the root uses get the numbers 0 to n-1, each number once, and no other rule gets one |
| `RuleStore.ZeroIsNew` | unit-test/tadoc.c:409-413 | Number zero means undiscovered: the root, whose number is zero, is never referred to by a rule it reaches |
| `RuleStore.TableDecides` | unit-test/tadoc.c:513-518 | The next table entry tells a rule symbol from a character, whatever the character is |
| `RuleStore.Restore` | unit-test/tadoc.c:511-527 | Restoring writes exactly the expansion of the rule at the write pointer, nothing before or behind it, and returns its length |
| `RuleStore.FlattenAndRestore` | unit-test/tadoc.c:389-527 | Flattening any acyclic grammar and restoring gives the expansion of its root |
| `Archive.CompressAndRestore` | unit-test/sequitur.cc:345-358 | Compressing any input, flattening the grammar (unit-test/tadoc.c, 389-425) and restoring it (511-527) gives the characters read; putting these three together is a composition of this project, no program of the repository does it |
| `Rle.Compress` | postgresql-16.0/src/common/rle_compress.c:97-201 | The encoded input, or nothing exactly when its size is outside the strategy or the encoding passes the size that saves enough |
| `Rle.RoundTrip` | postgresql-16.0/src/common/rle_compress.c:97-265 | Whatever the strategy, an input that was compressed is restored with the completeness check if and only if no step of the encoder that flushes a literal buffer did so with more than 127 bytes in it; otherwise restoring fails |
| `Rle.RoundTripFails` | postgresql-16.0/src/common/rle_compress.c:97-265 | An input of 529 bytes that the default strategy compresses, to 138 bytes, and that cannot be restored |
| `Rle.LostMeans` | postgresql-16.0/src/common/rle_compress.c:145-194 | Nothing is lost exactly when the encoder, wherever it comes by, never flushes more than 127 buffered bytes |
| `Rle.EncodeDecodes` | postgresql-16.0/src/common/rle_compress.c:97-265 | The encoded stream is well-formed, decodes to a text short by exactly the bytes lost, and to the input if and only if none is lost |
| `Rle.WellFormedIsRead` | postgresql-16.0/src/common/rle_compress.c:216-265 | The decoder reads all of a well-formed stream and nothing behind it |
| `Rle.FlushDecode` | postgresql-16.0/src/common/rle_compress.c:55-73 | A flushed buffer decodes to itself up to 127 bytes; of a longer one only 127 bytes come back |
| `Rle.StoreRun` | postgresql-16.0/src/common/rle_compress.c:97-201 | The chunks for a run and how much of it they cover |
| `Rle.Decompress` | postgresql-16.0/src/common/rle_compress.c:216-265 | On any bytes whatever: with the completeness check the text exactly when whole chunks make up the raw size and none is left over, otherwise nothing; without it the text of the chunks, cut only after the raw size is reached |
| `Rle.DecodeConcat` | postgresql-16.0/src/common/rle_compress.c:216-265 | Decoding distributes over concatenated streams |
| `HocoText.HocoCmp` | postgresql-16.0/contrib/hocotext/hocotext.c:234-395 | For all well-formed streams the sign of the lexicographic comparison of the decoded texts; cursors stay inside the streams and the 131-byte buffers suffice |
| `HocoText.Load` | postgresql-16.0/contrib/hocotext/hocotext.c:234-395 | Loading a chunk fills the buffer with the next stretch of the text and never overruns it |
| `HocoText.MixedCmp` | postgresql-16.0/contrib/hocotext/hocotext.c:397-488 | The same comparison when one side is encoded and the other plain, in either order |
| `HocoText.CompressedVersusPlain` | postgresql-16.0/contrib/hocotext/hocotext.c:397-488 | The loop of the mixed comparison gives the lexicographic comparison |
| `HocoText.CommonCmp` | postgresql-16.0/contrib/hocotext/hocotext.c:490-534 | The comparison of two plain texts |
| `HocoText.Cmp` | postgresql-16.0/contrib/hocotext/hocotext.c:1179-1226 | One comparison whatever the forms of the two texts |
| `HocoText.CmpIsTotalOrder` | postgresql-16.0/contrib/hocotext/hocotext.c:1179-1226 | That comparison is zero exactly on equal texts, antisymmetric and transitive across any mix of forms |
| `HocoText.HocoExtract` | postgresql-16.0/contrib/hocotext/hocotext.c:536-626 | For all offsets and lengths: the substring of the decoded text, nothing when it reaches the end, and reading behind the stream exactly for offsets behind the end; offset zero gives what the loop gathers when it takes the second byte of the stream for a control byte |
| `HocoText.ZeroOffset` | postgresql-16.0/contrib/hocotext/hocotext.c:597-617 | With offset zero a slice that ends before the text does is what the stream spells from its second byte on, or runs off the stream |
| `HocoText.ZeroOffsetIff` | postgresql-16.0/contrib/hocotext/hocotext.c:597-617 | A slice no longer than the chunk that the first byte d of the text would start is right if and only if d repeats: for d below 128, in the bytes of the stream behind it, as far as the slice or a first literal chunk goes; for other d, in the third byte of the stream and all through the slice of the text |
| `HocoText.ZeroOffsetOnlyIf` | postgresql-16.0/contrib/hocotext/hocotext.c:597-617 | A longer slice is right only if the beginning of that length is; so no slice is right, unless the text starts with NUL, when the second and third byte of the stream differ |
| `HocoText.ZeroOffsetFails` | postgresql-16.0/contrib/hocotext/hocotext.c:597-617 | Of the text ab the first byte is returned as b |
| `HocoText.GatherMeans` | postgresql-16.0/contrib/hocotext/hocotext.c:597-617 | From inside any chunk of a well-formed stream the loop gathers the text that follows |
| `HocoText.SpellsText` | postgresql-16.0/contrib/hocotext/hocotext.c:597-617 | From a true control byte a stream spells its decoded text |
| `HocoText.Locate` | postgresql-16.0/contrib/hocotext/hocotext.c:585-596 | Skipping chunks finds the place of an offset inside its chunk, or runs off the stream exactly for offsets behind the end of the text |
| `HocoText.CommonExtract` | postgresql-16.0/contrib/hocotext/hocotext.c:628-662 | The substring of a plain text |
| `GistVarKey.SearchIsExact` | postgresql-16.0/contrib/btree_gist/btree_utils_var.c:553-612 | In any tree whose keys come from unions and from fit splits, search returns exactly the values that satisfy the strategy, for all six strategies |
| `GistVarKey.SearchIsExactIff` | postgresql-16.0/contrib/btree_gist/btree_utils_var.c:553-612 | For any tree at all: search is exact for all queries and strategies if and only if the bounds of every inner key reach every value below it |
| `GistVarKey.ReachesIff` | postgresql-16.0/contrib/btree_gist/btree_utils_var.c:553-612 | The bounds of a key reach a value, up to a cut bound being a prefix of it, if and only if no query that the value satisfies is pruned at the key |
| `GistVarKey.OriginReaches` | postgresql-16.0/contrib/btree_gist/btree_utils_var.c:232-357 | A key made by unions and fit splits reaches every value below it |
| `GistVarKey.NeverPruned` | postgresql-16.0/contrib/btree_gist/btree_utils_var.c:553-612 | No ancestor key of a matching value is pruned, through any number of nested unions and fit splits |
| `GistVarKey.OriginAdmits` | postgresql-16.0/contrib/btree_gist/btree_utils_var.c:232-357 | A key made by unions and splits that keep their entries admits every value below it |
| `GistVarKey.NodeIsComplete` | postgresql-16.0/contrib/btree_gist/btree_utils_var.c:553-612 | A key that admits a matching value passes the test of every strategy, by its bounds or by the prefix match |
| `GistVarKey.LeafIsExact` | postgresql-16.0/contrib/btree_gist/btree_utils_var.c:553-612 | On a leaf the test holds exactly for matching values |
| `GistVarKey.UnionAdmits` | postgresql-16.0/contrib/btree_gist/btree_utils_var.c:321-357 | A union admits what its parts admit although its bounds are cut, and keeps exact bounds where nothing was cut |
| `GistVarKey.UnionIsSane` | postgresql-16.0/contrib/btree_gist/btree_utils_var.c:321-357 | A union keeps its bounds in order and two bytes more than they share |
| `GistVarKey.Union` | postgresql-16.0/contrib/btree_gist/btree_utils_var.c:321-357 | The loop computes the truncated bounds of all keys |
| `GistVarKey.NodeCpLen` | postgresql-16.0/contrib/btree_gist/btree_utils_var.c:120-162 | The length of the longest common prefix of the bounds |
| `GistVarKey.TruncatedAdmits` | postgresql-16.0/contrib/btree_gist/btree_utils_var.c:203-228 | Cutting bounds keeps a value admitted when the cut keeps what the entry below says |
| `GistVarKey.PickSplit` | postgresql-16.0/contrib/btree_gist/btree_utils_var.c:457-547 | The entries are halved in sorted order and both keys are the bounds of their half, cut to the longer common prefix |
| `GistVarKey.SplitHarmlessIff` | postgresql-16.0/contrib/btree_gist/btree_utils_var.c:532-541 | A split key passes the test of every query that a value admitted by an entry of its half satisfies, if and only if the entry was cut no earlier, was not cut at all or stays below the new upper bound, or the new lower bound is a prefix of where the entry was cut |
| `GistVarKey.LeafSplitIsKept` | postgresql-16.0/contrib/btree_gist/btree_utils_var.c:457-547 | Splitting a leaf page keeps every entry, so that a loss needs an inner page |
| `GistVarKey.LeafSplitsAreKept` | postgresql-16.0/contrib/btree_gist/btree_utils_var.c:457-547 | A key made by any nesting of unions and of splits of leaf pages is kept and fit |
| `GistVarKey.LeafSearchIsExact` | postgresql-16.0/contrib/btree_gist/btree_utils_var.c:553-612 | In a tree whose keys come from unions and from splits of leaf pages search is exact, for all queries and strategies |
| `GistVarKey.SoleEntryIsKept` | postgresql-16.0/contrib/btree_gist/btree_utils_var.c:457-547 | So does a split that leaves an entry alone in its half |
| `GistVarKey.InnerSplitLosesValue` | postgresql-16.0/contrib/btree_gist/btree_utils_var.c:532-541 | Four entries of an inner page whose split is not fit and hides a matching value from a search |
| `BloomRuns.RunConserves` | postgresql-16.0/contrib/bloom/blinsert.c:173-341 | Over any interleaving of any processes, with crashes, every tuple is on live pages as often as it was at first, plus the inserts of it that finished, minus the times a vacuum removed it |
| `BloomIndex.RunValid` | postgresql-16.0/contrib/bloom/blinsert.c:173-341 | In every reachable state no page overflows, no live page is empty, every block number that the metapage, the space map or a process remembers exists, and the metapage lock is exclusive |
| `BloomRuns.VacuumIsComplete` | postgresql-16.0/contrib/bloom/blvacuum.c:33-161 | When a bulk delete is done no live page holds a tuple it was told to delete, whatever inserters and other vacuums did meanwhile |
| `BloomRuns.ScanIsComplete` | postgresql-16.0/contrib/bloom/blscan.c:80-172 | A row that is indexed when a scan starts, has the values sought and is not being vacuumed is in the bitmap when the scan is done |
| `BloomRuns.ScanIsSound` | postgresql-16.0/contrib/bloom/blscan.c:80-172 | Every entry of the bitmap belongs to a tuple with all bits sought that was on a page or on its way when the scan started |
| `BloomRuns.AdvanceEvolves` | postgresql-16.0/contrib/bloom/blinsert.c:199-231 | In one step a page only gains the tuple being inserted at its end, or loses exactly its dead tuples to the vacuum at that page; stale entries never overwrite a live page |
| `BloomRuns.InsertFinishes` | postgresql-16.0/contrib/bloom/blinsert.c:271-341 | Left alone, an insert ends whatever the free space map answers, within a number of steps bounded by the entries of the metapage and of the map |
| `BloomIndex.EmptyPageAccepts` | postgresql-16.0/contrib/bloom/blutils.c:318-347 | A tuple of any permitted size fits on an empty page |
| `BloomIndex.ClaimOk` | postgresql-16.0/contrib/bloom/blutils.c:353-395 | A page taken from the space map or added to the file holds exactly the new tuple and becomes the only page in the metapage list; no other page changes |
| `BloomIndex.VacuumPageOk` | postgresql-16.0/contrib/bloom/blvacuum.c:54-134 | A vacuumed page stays in order, and the only page that may enter the new list is the vacuumed one, if it has room |
| `BloomPages.PageBuffer.Add` | postgresql-16.0/contrib/bloom/blutils.c:318-347 | The tuple is appended exactly when it fits, and never written beyond the page |
| `BloomPages.PageBuffer.Compact` | postgresql-16.0/contrib/bloom/blvacuum.c:80-134 | Compaction in place keeps exactly the tuples that are not dead, in order, counts the others and marks an emptied page deleted |
| `BloomPages.Build` | postgresql-16.0/contrib/bloom/blinsert.c:120-158 | The pages built hold all rows in order, and every page but the last is full |
| `BloomPages.BuildCallback` | postgresql-16.0/contrib/bloom/blinsert.c:73-115 | One more row goes to the cached page, or to a new one after a full page was flushed |
| `BloomPages.GetBitmap` | postgresql-16.0/contrib/bloom/blscan.c:80-172 | The page, tuple and word loops collect a row exactly when a tuple of it on some page has every bit sought |
| `BloomPages.CollectIff` | postgresql-16.0/contrib/bloom/blscan.c:80-172 | After any number of pages the bitmap has exactly the rows of the tuples on them that have every bit sought |
| `BloomSignature.DrawsMultiply` | postgresql-16.0/contrib/bloom/blutils.c:219-254 | After k draws from a usable state the state is 16807^k times it modulo 2^31-1 and lies in 1 to 2^31-2 |
| `BloomSignature.DrawMultiplies` | postgresql-16.0/contrib/bloom/blutils.c:219-245 | One draw multiplies by 16807 modulo 2^31-1, and every intermediate value fits into 32 bits |
| `BloomSignature.SeededIsUsable` | postgresql-16.0/contrib/bloom/blutils.c:248-254 | Seeding leaves a state of the generator, and state zero for exactly two seeds |
| `BloomSignature.BitInSignature` | postgresql-16.0/contrib/bloom/blutils.c:259-287 | Every bit of a value lies inside the signature if and only if the seed is usable; otherwise every bit number is -1 |
| `BloomSignature.SomeHashIsUndefined` | postgresql-16.0/contrib/bloom/blutils.c:259-287 | In every column some hash value has an unusable seed |
| `BloomSignature.SignValue` | postgresql-16.0/contrib/bloom/blutils.c:259-287 | The words hold the old bits and exactly the bits drawn for the value |
| `BloomSignature.FormTuple` | postgresql-16.0/contrib/bloom/blutils.c:292-311 | The signature of a row is the bits of its columns that are not null |
| `BloomSignature.FormScan` | postgresql-16.0/contrib/bloom/blscan.c:91-117 | The signature of a scan is the bits of its keys; a null key finds nothing |
| `BloomSignature.Matches` | postgresql-16.0/contrib/bloom/blscan.c:147-156 | The word loop accepts a tuple exactly when every bit of the scan is a bit of the tuple |
| `BloomSignature.NoFalseNegative` | postgresql-16.0/contrib/bloom/blscan.c:147-156 | A row with the values sought has every bit of the scan |
| `UpdateChains.CheckPage` | postgresql-16.0/contrib/amcheck/verify_heapam.c:436-776 | The three loops report every fault of the page and nothing else, and report nothing exactly for a sound page |
| `UpdateChains.SoundIffFaultless` | postgresql-16.0/contrib/amcheck/verify_heapam.c:580-776 | No fault is left exactly when redirects lead to tuples, links share no successor, HOT flags and xmin status agree along links, and no live heap-only tuple starts a chain |
| `UpdateChains.CheckLines` | postgresql-16.0/contrib/amcheck/verify_heapam.c:442-573 | The arrays hold for every line pointer whether it is sound, where it leads and its xmin status |
| `UpdateChains.CheckLine` | postgresql-16.0/contrib/amcheck/verify_heapam.c:457-573 | The fault of one line pointer, if any, and where it leads |
| `UpdateChains.CheckLinks` | postgresql-16.0/contrib/amcheck/verify_heapam.c:580-744 | All faults of links, and for every line pointer the first one linked to it |
| `UpdateChains.CheckLink` | postgresql-16.0/contrib/amcheck/verify_heapam.c:594-744 | The faults of the link at one line pointer |
| `UpdateChains.CheckUpdate` | postgresql-16.0/contrib/amcheck/verify_heapam.c:679-743 | The faults between a tuple and its new version |
| `UpdateChains.CheckRoots` | postgresql-16.0/contrib/amcheck/verify_heapam.c:753-776 | The live heap-only tuples that nothing links to |
| `UpdateChains.ChainsDoNotMerge` | postgresql-16.0/contrib/amcheck/verify_heapam.c:580-744 | On a page without reports, of two chains that meet one is the end of the other |
| `UpdateChains.ChainFlags` | postgresql-16.0/contrib/amcheck/verify_heapam.c:679-700 | Along a chain a tuple is heap-only exactly where the one before is a redirect or HOT-updated |
| `UpdateChains.CircleIsNotReported` | postgresql-16.0/contrib/amcheck/verify_heapam.c:580-776 | A page on which two tuples are each the next version of the other passes all checks |
| `UpdateChains.CircularIff` | postgresql-16.0/contrib/amcheck/verify_heapam.c:580-776 | On a page without reports a line pointer lies on a circle if and only if no chain from a line pointer that nothing links to leads to it, and if and only if a chain longer than the page ends at it |
| `UpdateChains.RootedIsBounded` | postgresql-16.0/contrib/amcheck/verify_heapam.c:580-776 | On a page without reports a chain from a line pointer that nothing links to visits nothing twice and is no longer than the page |
| `ToastChunks.CheckAttribute` | postgresql-16.0/contrib/amcheck/verify_heapam.c:1769-1819 | Nothing is reported exactly when the chunks are numbered 0 to the last in order and have the sizes of an even cut |
| `ToastChunks.CheckChunk` | postgresql-16.0/contrib/amcheck/verify_heapam.c:1458-1541 | One chunk passes exactly when its number is the expected one and its data has the expected size |
| `ToastChunks.IntactAddsUp` | postgresql-16.0/contrib/amcheck/verify_heapam.c:1458-1541 | The chunks of a value without reports add up to its external size; size zero is taken for 2^32 |
| `CubeBoxes.TreeIsSound` | postgresql-16.0/contrib/cube/cube.c:679-737 | In any tree of boxes no ancestor of a match is pruned for overlap, contains and same, and every distance to a node is a lower bound for everything below |
| `CubeBoxes.Union` | postgresql-16.0/contrib/cube/cube.c:748-803 | The union has the larger dimension and in every dimension the hull of both intervals, missing dimensions being zero |
| `CubeBoxes.UnionIsLeast` | postgresql-16.0/contrib/cube/cube.c:748-803 | A union covers both cubes and lies inside everything that covers both |
| `CubeBoxes.UnionAll` | postgresql-16.0/contrib/cube/cube.c:425-449 | The union of all entries covers each and is the least that does; a single entry gives nothing |
| `CubeBoxes.Contains` | postgresql-16.0/contrib/cube/cube.c:1124-1159 | True exactly when every dimension of the second cube lies inside the first; extra dimensions of the first do not matter |
| `CubeBoxes.Overlap` | postgresql-16.0/contrib/cube/cube.c:1194-1229 | True exactly when the cubes meet in every dimension |
| `CubeBoxes.Compare` | postgresql-16.0/contrib/cube/cube.c:937-1014 | The sign of the word-by-word comparison of the corners over the shared dimensions, then over the others, missing ones being zero, then of the dimensions; zero exactly for equal cubes of equal dimension |
| `CubeBoxes.TransitiveIff` | postgresql-16.0/contrib/cube/cube.c:937-1014 | On the cubes of a set of dimensions the comparison is transitive, as an ordered index needs, if and only if at most one of the dimensions is not zero |
| `CubeBoxes.OrderIsCircular` | postgresql-16.0/contrib/cube/cube.c:937-1014 | For any two dimensions, three cubes each of which is less than the next one, round in a circle |
| `CubeBoxes.OrderOpposite` | postgresql-16.0/contrib/cube/cube.c:937-1014 | Exchanging the arguments turns the result round |
| `CubeBoxes.Consistent` | postgresql-16.0/contrib/cube/cube.c:679-737 | The dispatch on strategies for leaves and inner entries |
| `CubeBoxes.CoverMayMatch` | postgresql-16.0/contrib/cube/cube.c:708-737 | A box that covers a match passes the inner test |
| `CubeBoxes.ContainedByIff` | postgresql-16.0/contrib/cube/cube.c:1147-1226 | Contained-by is never pruned above a cube if and only if the query reaches zero in every dimension the cube lacks |
| `CubeBoxes.ContainedByIsPruned` | postgresql-16.0/contrib/cube/cube.c:1147-1226 | A point and a query for which it is |
| `CubeBoxes.ComputeDistance` | postgresql-16.0/contrib/cube/cube.c:1253-1395 | Taxicab, squared Euclidean and Chebyshev distance of two cubes of any dimensions |
| `CubeBoxes.Distance1DIsApart` | postgresql-16.0/contrib/cube/cube.c:1503-1515 | The distance of two intervals given by corners in any order |
| `CubeBoxes.DistanceIsLowerBound` | postgresql-16.0/contrib/cube/cube.c:1253-1395 | The distance to a covering box is at most the distance to the cube, in all three metrics |
| `CubeBoxes.RootIsLowerBound` | postgresql-16.0/contrib/cube/cube.c:1253-1298 | The same for the Euclidean distance with its square root taken |
| `CubeBoxes.CoordinateIsLowerBound` | postgresql-16.0/contrib/cube/cube.c:1405-1465 | The value that orders a node by a coordinate is at most that of any cube below, in both directions |
| `CubeBoxes.ChooseSeeds` | postgresql-16.0/contrib/cube/cube.c:547-578 | The two seeds waste the most space of all pairs but those with the last entry |
| `CubeBoxes.PickSplit` | postgresql-16.0/contrib/cube/cube.c:511-655 | Every entry goes to exactly one side, both sides get one, and the box of each side covers its entries |
| `HStoreUpgrade.HStore.Upgrade` | postgresql-16.0/contrib/hstore/hstore_compat.c:236-349 | Which way a value goes, and that a converted old value reads through the new macros exactly as its old entries did, with positions and key lengths nondecreasing |
| `HStoreUpgrade.HStore.Convert` | postgresql-16.0/contrib/hstore/hstore_compat.c:316-343 | The entry array after conversion in place |
| `HStoreUpgrade.ConvertedIsNew` | postgresql-16.0/contrib/hstore/hstore_compat.c:316-343 | Converted entries form a valid new value with the same keys, values and nulls and the same end |
| `HStoreUpgrade.HStore.ValidOldFormat` | postgresql-16.0/contrib/hstore/hstore_compat.c:171-229 | Accepts exactly contiguous old entries with nondecreasing key lengths that fit, and says whether the size is exact |
| `HStoreUpgrade.HStore.ValidNewFormat` | postgresql-16.0/contrib/hstore/hstore_compat.c:119-160 | Accepts exactly new entries with nondecreasing ends and key lengths that fit, and says whether the size is exact |
| `HStoreUpgrade.FastTrackMisreads` | postgresql-16.0/contrib/hstore/hstore_compat.c:249-256 | A valid old value is taken for a new one exactly when it is short and its first value is null with a length field of 32768 or more |
| `HStoreUpgrade.MisreadIsWrong` | postgresql-16.0/contrib/hstore/hstore_compat.c:249-256 | Every valid old value that is taken for a new one has its first pair read wrongly |
| `HStoreUpgrade.FastTrackMisreadsOne` | postgresql-16.0/contrib/hstore/hstore_compat.c:249-256 | Such a value |

## Left out

- Sequitur.Compressor.Compress: works on the digram table as a finite map. That the array of slots does the same, and every probe ends, is proved for runs that store fewer than 133267 symbols (`SequiturTable.RunIsPlayed`), which covers texts of 4038 characters (`Archive.CompressOnTable`); for longer texts it is taken that every probe ends, for which `DigramTable.EndsIff` has the exact condition on the slots.
- SequiturTable.RunIsPlayed: takes it that different keys in the memory are different machine words.
- Sequitur: the memory allocator; addresses are natural numbers.
- tadoc.c byte packing (writeRuleData, readRuleData, writeCompressedData, tadoc_decompress): the offsets of writer and reader disagree, so the code decides no round trip; the C port of the compressor in that file differs from the C++ one in how it counts uses and is not modelled.
- RuleStore.Flattener.Discover: the number of subrules starts at zero, as the allocation that follows needs, and the offset table is never read behind its end.
- HocoText.HocoExtract: offsets and lengths are not negative (the code ends the process for a negative length), the recorded raw size is that of the decoded text, and the byte behind the stream that the code looks at after the last chunk, without using it, is not read.
- hocotext insert, delete and hash are stubs in the source; TOAST fetching and varlena headers are foreign calls.
- HocoText.Cmp: streams are well-formed, as the encoder writes them; literal chunks of length zero are not part of a well-formed stream.
- Rle.Decompress: the memory behind the stream can be read as far as the longest literal chunk reaches.
- GistVarKey.SearchIsExact: of trees with keys from nested splits it is stated for fit splits only; the exact statement for all trees, on the keys themselves, is `GistVarKey.SearchIsExactIff`.
- GistVarKey.PickSplit: the sort is given as an arbitrary order of the entries, since nothing proved depends on which one it is; penalties, multibyte prefixes and keys that are not truncated are left out.
- Bloom: write-ahead logging and the buffer manager are taken as atomic steps; hash functions are inputs.
- BloomRuns.VacuumIsComplete: needs that no insert under way is of a tuple being deleted, which holds because heap slots are not reused before a vacuum is over.
- CubeBoxes.PickSplit: the measures of waste and size are parameters, so the statement holds for any of them.
- CubeBoxes.ComputeDistance: gives the Euclidean distance before its square root, of which `CubeBoxes.RootIsLowerBound` speaks; NaN does not occur.
- UpdateChains.CheckPage: the checks of a single tuple and its transaction status are inputs.
- HStoreUpgrade.HStore.Upgrade: entries are laid out as on a little-endian machine, and the entry array is taken to be present as far as the count says.
- The remaining contrib modules, index costs, operator class validation, text input and output, memory management and debug printing are not modelled; they would add only easier statements.
