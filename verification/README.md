# A verified model of four pieces of the Libra framework's tooling

This project models four connected pieces of the repository in Dafny and proves what they are for.

**The version-five storage codec** (`compatibility/src/version_five`). Legacy chain state is a map from byte keys to byte
values. A key is a code prefix with an encoded module id, or a resource prefix with an encoded struct tag; tags nest, and
their serializers share a thread-local depth counter with a writing limit of nine levels and a reading limit of eight. The
encoding is Binary Canonical Serialization (BCS): ULEB128 lengths and variant indices, fixed arrays, externally tagged
enumerations and canonical maps. `Bcs`, `LanguageStorage`, `SafeSerialize` and `AccountBlob` model it: the byte-level
functions, the imperative serializers with their counter, and the account state with its keyed lookup; `Utf8Laws` says which
bytes are an identifier. `TagDisplay` holds the
printers of the tags and a parser that inverts them; `Hex`, `LegacyAddress`, `Event`, `DiemAccount` and `HashValue` hold the
address literals, event keys and the 256-bit hash with its bit iterator; `TransactionManifest` the backup manifest check.

**The upgrade-script generator** (`framework/src/builder`). `ReleaseBundle` writes a package as the text of a Move script,
step by step to a code writer. `MoveScript` is an independent reading of such a text: a parser and an interpreter for the
imports, statements and calls that governance scripts use, which records the framework calls a script makes.
`ScriptParse`, `ScriptAhead` and `ScriptMeaning` prove the generator correct against it, `ScriptExample` spells the generated words
out, `ScriptSafety` says what holds in the run of every text, generated or not, and `UpgradeProposal` proves what the driver
makes of several packages: a chain of scripts, each authorizing the next.

**The genesis migration** (`tools/genesis/src`). `Recovery` holds the recovered records; `ParseJson` the repair of slow
wallets and the dropping of accounts, in place on an array; `Supply` the statistics; `CommWallet` the rebuilding of wallets
and donors in mutable maps, with `CommWalletLaws`, and `DepositLaws` and `DonorLaws` over the sums in `KeySums`; `Migration` the
migrators as the trace of calls a session receives, with `MigrationLaws` and `CallContents`.

**Entry-function payloads** (`framework/cached-packages/src`). `EntryFunctions` has the 48 entry functions as one table of
module, function and argument types, and one encoder and decoder for all of them.

Methods that change state are specified by functions of the old state, and the laws are lemmas about those functions.

## Findings

- A tag that nests nine levels can be written but not read back (`SafeSerialize.NinthLevelIsWriteOnly`); the exact limits for
  every counter value are in `SafeSerialize.WrittenThenRead`.
- Tags whose identifiers are free of `:`, `<`, `>` and `,` are told apart by their printed form. Among all tags, a struct with
  type parameters always prints like another one, which has none and whose name ends with the printed list;
  every other tag with no `:` and no `<` in the identifiers of its struct has its text to itself (`TagDisplay.PrintsUniquely` is the
  equivalence). Whether a name of the
  first kind can be read from storage depends on `Identifier` in `move_core_types`, which is not part of the repository; the
  model assumes that an identifier is any UTF-8 string.
- In a git repository whose head leads to no commit the generator writes the commit `none`, which is no hexadecimal string:
  the script is invalid (`ScriptMeaning.WithoutCommit`). Outside a repository the program panics before it writes anything.
- `generate_next_execution_hash_blob` compares the hash with the characters of the Move expression for an empty vector. The
  empty hash of the last script does not take that branch, and is written as an empty literal instead; the branch is taken
  for those 19 bytes only, which then arrive as an empty hash (`ScriptMeaning.HashArrives`).
- A comment in the driver says that the order of the scripts is reversed back when they are written to files.
  `write_to_file` numbers them in the order of compilation, from zero, so its numbers run against the deploy order in the
  directory names (`UpgradeProposal.FileNumbering`). The model follows the code.
- Without overflow checks the manifest check accepts a manifest that is no tiling: behind a chunk that ends at the largest
  64-bit version it expects one that starts at zero (`TransactionManifest.WrappedManifest`); `TransactionManifest.TilesExactly` has
  the exact condition. With overflow checks it panics on the first chunk it reaches that ends there.
- A slow wallet that has unlocked nothing is counted in the slow total, but neither as locked nor as unlocked
  (`Supply.SupplySplits` has the exact remainder).
- `EntryFunctionCall::decode` looks at the joined name and the leading arguments only. It accepts a module and function that do
  not exist, at any address (`EntryFunctions.OtherSplitDecodes`); `EntryFunctions.DecodeExactly` says exactly which payloads it accepts.

## Model

| member | source | states |
|---|---|---|
| Bcs.UlebRoundTrip | compatibility/src/version_five/language_storage_v5.rs:17-47 | every 32-bit length or variant index is read back from its ULEB128 digits, with the bytes behind it untouched |
| Bcs.ReadBytes | compatibility/src/version_five/language_storage_v5.rs:17-47 | what is read as a byte string is the canonical encoding in front of the rest, and its length is in range |
| Bcs.UlebMeaning | compatibility/src/version_five/language_storage_v5.rs:17-47 | the digits of a length or variant index denote the number, least significant first, all but the last are marked, and there is no superfluous zero |
| Bcs.ReadLenExactly | compatibility/src/version_five/language_storage_v5.rs:41-47 | a length is read exactly from the canonical digits of a number below 2^31 |
| Utf8Laws.Utf8Exactly | compatibility/src/version_five/language_storage_v5.rs:41-47 | the byte strings accepted as names are exactly those that encode a sequence of Unicode scalar values |
| LanguageStorage.ReadTag | compatibility/src/version_five/safe_serialize_v5.rs:46-69 | whatever is read fits, nests within the limit, and its encoding is exactly the consumed input |
| LanguageStorage.TagRoundTrip | compatibility/src/version_five/language_storage_v5.rs:17-38 | reading an encoded type tag followed by any bytes returns the tag and those bytes when it nests within the limit, and fails with the nesting error when it does not |
| LanguageStorage.StructRoundTrip | compatibility/src/version_five/language_storage_v5.rs:41-47 | the same for struct tags |
| LanguageStorage.TagReadExactly | compatibility/src/version_five/language_storage_v5.rs:17-47 | the reader accepts an input with a tag and a rest if and only if the tag is encodable, within the limit, and the input is its encoding followed by the rest |
| LanguageStorage.TagPrefixFree | compatibility/src/version_five/language_storage_v5.rs:17-38 | encodings of type tags are injective and none is a proper prefix of another |
| LanguageStorage.StructPrefixFree | compatibility/src/version_five/language_storage_v5.rs:41-47 | the same for struct tags, at every nesting |
| LanguageStorage.AccessVectorInjective | compatibility/src/version_five/language_storage_v5.rs:49-54 | two struct tags with the same resource key are equal |
| LanguageStorage.ModuleAccessVectorInjective | compatibility/src/version_five/language_storage_v5.rs:111-116 | code keys are injective and none is a resource key |
| LanguageStorage.DiemAccountKey | compatibility/src/version_five/state_snapshot_v5.rs:192-216 | the resource key of `DiemAccount` is the byte string listed there |
| LanguageStorage.BalanceKey | compatibility/src/version_five/state_snapshot_v5.rs:218-227 | the resource key of the nested `Balance<GAS>` tag is the byte string listed there |
| LanguageStorage.VariantNumbers | compatibility/src/version_five/language_storage_v5.rs:17-38 | the variants are numbered 0 to 7 in the order of the enumeration |
| LanguageStorage.AllKindsKey | compatibility/src/version_five/language_storage_v5.rs:17-54 | the resource key of a struct with a parameter of every kind, as one byte string |
| LanguageStorage.ModuleKeyBytes | compatibility/src/version_five/language_storage_v5.rs:111-116 | a code key is a zero byte, the address, and the name behind its length |
| SafeSerialize.SerializeTag | compatibility/src/version_five/language_storage_v5.rs:17-38 | writing appends exactly the tag's encoding; it succeeds if and only if the tag fits and nests within nine levels less the counter; the counter returns to where it was on every path |
| SafeSerialize.RecursiveSerializeTag | compatibility/src/version_five/safe_serialize_v5.rs:19-41 | the guarded step: one level more, refused exactly when the counter has reached nine, and the counter restored on success and failure |
| SafeSerialize.RecursiveSerializeStruct | compatibility/src/version_five/safe_serialize_v5.rs:19-41 | the same around a struct tag |
| SafeSerialize.SerializeStruct | compatibility/src/version_five/language_storage_v5.rs:41-47 | a struct tag is written in field order with its parameters, or the nesting or length error is reported, the counter unchanged |
| SafeSerialize.SerializeList | compatibility/src/version_five/language_storage_v5.rs:45-46 | the parameters of a struct tag, each at the same counter value |
| SafeSerialize.DeserializeTag | compatibility/src/version_five/safe_serialize_v5.rs:45-69 | the counting deserializer gives the value, the error and the rest of the input that the pure reader gives with eight levels less the counter; the counter returns to where it was |
| SafeSerialize.DeserializeStruct | compatibility/src/version_five/safe_serialize_v5.rs:45-69 | the same for struct tags |
| SafeSerialize.DeserializeList | compatibility/src/version_five/safe_serialize_v5.rs:45-69 | the same for the parameters of a struct tag |
| SafeSerialize.ToBytes | compatibility/src/version_five/safe_serialize_v5.rs:14-41 | serializing from any counter value succeeds exactly within the writing limit and gives the encoding |
| SafeSerialize.FromBytes | compatibility/src/version_five/safe_serialize_v5.rs:14-69 | deserializing a whole input from any counter value accepts what the pure reader accepts with nothing left over |
| SafeSerialize.AccessVectorOf | compatibility/src/version_five/language_storage_v5.rs:49-54 | on a fresh thread the resource key exists exactly for tags of at most nine levels, and the counter is zero again afterwards |
| SafeSerialize.WrittenThenRead | compatibility/src/version_five/safe_serialize_v5.rs:14-69 | a tag written at a counter value and read at the same value comes back exactly when it nests within the reading limit, one level short of the writing limit |
| SafeSerialize.NinthLevelIsWriteOnly | compatibility/src/version_five/safe_serialize_v5.rs:14-16 | nine nested vectors are written and refused on reading; eight come back |
| TagDisplay.FmtTag | compatibility/src/version_five/language_storage_v5.rs:125-144 | the printer appends the text of the tag, nested tags included |
| TagDisplay.FmtStruct | compatibility/src/version_five/language_storage_v5.rs:146-159 | the loop over parameters writes brackets and commas as the text form has them |
| TagDisplay.TagTextRoundTrip | compatibility/src/version_five/language_storage_v5.rs:125-159 | parsing a printed tag in front of any text that cannot continue it returns the tag and that text |
| TagDisplay.StructTextRoundTrip | compatibility/src/version_five/language_storage_v5.rs:146-159 | the same for struct tags, through the trimmed address and the nested parameters |
| TagDisplay.TagTextInjective | compatibility/src/version_five/language_storage_v5.rs:125-159 | tags whose identifiers are free of the delimiters and that print alike are equal |
| TagDisplay.PrintsUniquely | compatibility/src/version_five/language_storage_v5.rs:125-159 | among all tags, a tag whose struct has no `:` and no `<` in its identifiers has its text to itself if and only if no struct in it has type parameters |
| TagDisplay.ParamsAreAmbiguous | compatibility/src/version_five/language_storage_v5.rs:125-159 | every tag around a struct with type parameters, whatever its identifiers, prints like another tag |
| TagDisplay.StructIsUnique | compatibility/src/version_five/language_storage_v5.rs:146-159 | a struct without type parameters and with such identifiers shares its text with no other struct at all |
| TagDisplay.OddIdentifierIsAmbiguous | compatibility/src/version_five/language_storage_v5.rs:146-159 | the smallest such pair: one tag has a parameter, the other a name that ends with it |
| TagDisplay.Keywords | compatibility/src/version_five/language_storage_v5.rs:125-144 | the texts of the kinds that are no structs |
| TagDisplay.PrintedExample | compatibility/src/version_five/language_storage_v5.rs:146-159 | `0x1::M::N<vector<u8>, bool>`, with its brackets, comma and trimmed address |
| Hex.DecodeInverse | compatibility/src/version_five/legacy_address_v5.rs:87-93 | decoding succeeds exactly on an even number of digits of either case, and encoding the result gives the lower-case digits back |
| Hex.EncodeRoundTrip | compatibility/src/version_five/legacy_address_v5.rs:95-97 | decoding printed bytes returns the bytes |
| Hex.DecodeKeepsNumber | compatibility/src/version_five/legacy_address_v5.rs:61-81 | decoding keeps the number the digits denote |
| Hex.DigitChars | compatibility/src/version_five/legacy_address_v5.rs:87-97 | the sixteen digits, printed in lower case and read in either |
| LegacyAddress.FromHexLiteral | compatibility/src/version_five/legacy_address_v5.rs:61-81 | the padding loop computes the literal's address, or fails, as the literal's digits padded to 32 do |
| LegacyAddress.LiteralMeaning | compatibility/src/version_five/legacy_address_v5.rs:61-81 | a literal is accepted exactly when it is `0x` and at most 32 hexadecimal digits, and the address is the number denoted |
| LegacyAddress.LiteralRoundTrip | compatibility/src/version_five/legacy_address_v5.rs:83-85 | parsing the printed literal of an address returns the address |
| LegacyAddress.ShortFormUnique | compatibility/src/version_five/legacy_address_v5.rs:42-49 | a literal is printed back unchanged exactly when it is the trimmed lower-case form |
| LegacyAddress.ShortStrIsShort | compatibility/src/version_five/legacy_address_v5.rs:42-49 | the short form is trimmed, at most 32 digits, and denotes the address |
| LegacyAddress.LiteralExamples | compatibility/src/version_five/legacy_address_v5.rs:42-85 | the zero address prints as `0x0`, the core code address as `0x1` |
| Event.NewFromAddress | compatibility/src/version_five/event_v5.rs:59-65 | the two halves of the array become the little-endian salt and the address |
| Event.KeyBijection | compatibility/src/version_five/event_v5.rs:39-65 | event keys are in bijection with pairs of an address and a 64-bit creation number |
| Event.KeyExample | compatibility/src/version_five/event_v5.rs:236-246 | the key whose printed form is listed there |
| DiemAccount.AccountAddress | compatibility/src/version_five/diem_account_v5.rs:77-87 | the cast through the printed literal never fails, and an account resource's address is the one its sent-event key was built from |
| HashValue.BitIterator.Next | compatibility/src/version_five/hash_value_v5.rs:419-442 | a forward step yields the next bit of the value, most significant first, and ends after 256 |
| HashValue.CollectBits | compatibility/src/version_five/hash_value_v5.rs:216-219 | iterating to the end yields the bits of the value in order |
| HashValue.FromBitIter | compatibility/src/version_five/hash_value_v5.rs:221-236 | building from bits succeeds exactly on 256 of them, and the value's bits are those |
| HashValue.RebuildFromBits | compatibility/src/version_five/hash_value_v5.rs:216-236 | building from the iterated bits returns the value |
| HashValue.BitsInjective | compatibility/src/version_five/hash_value_v5.rs:200-206 | values with the same bits are equal |
| HashValue.PrefixLenMeaning | compatibility/src/version_five/hash_value_v5.rs:238-244 | the counted prefix is the one length up to which the bits agree and no further |
| HashValue.PrefixSymmetric | compatibility/src/version_five/hash_value_v5.rs:238-244 | the common prefix is symmetric, and 256 exactly on equal values |
| HashValue.PrefixDecidesOrder | compatibility/src/version_five/hash_value_v5.rs:118-120 | of two different values the byte-wise smaller is the one whose first differing bit is zero |
| HashValue.PrefixUltrametric | compatibility/src/version_five/hash_value_v5.rs:238-244 | the prefix of two values is at least the shorter of their prefixes with any third |
| HashValue.NibbleIsFourBits | compatibility/src/version_five/hash_value_v5.rs:208-214 | nibble number i is bits 4i to 4i+3 |
| HashValue.HexDigitIsNibble | compatibility/src/version_five/hash_value_v5.rs:351-361 | the printed digit at every position is the digit of that nibble |
| HashValue.HexRoundTrip | compatibility/src/version_five/hash_value_v5.rs:246-263 | reading the printed digits returns the value |
| AccountBlob.ReadEntries | compatibility/src/version_five/account_blob_v5.rs:106-109 | the entries read are strictly ascending in their keys' canonical order and their encoding is the consumed input |
| AccountBlob.ListingUnique | compatibility/src/version_five/account_blob_v5.rs:20-21 | a map has only one ascending listing, hence one encoding |
| AccountBlob.ListsAscend | compatibility/src/version_five/account_blob_v5.rs:20-21 | in every list that is read or written neighbouring keys ascend: where their encodings first differ the first has the smaller byte, or ends; and the written list holds every entry of the map |
| AccountBlob.TwoEntryBlob | compatibility/src/version_five/account_blob_v5.rs:106-109 | a blob of two entries and the map it decodes to; with its entries exchanged it is refused |
| AccountBlob.StateRoundTrip | compatibility/src/version_five/account_blob_v5.rs:106-109 | decoding the canonical encoding of any state returns the state |
| AccountBlob.StateDecodesExactly | compatibility/src/version_five/account_blob_v5.rs:106-109 | a blob decodes to a state if and only if it is that state's canonical encoding |
| AccountBlob.FindBytesLegacyStructTag | compatibility/src/version_five/account_blob_v5.rs:37-46 | the lookup with the counting serializer behind it finds, misses or panics as the pure lookup does, and leaves the counter at zero |
| AccountBlob.KeyedLookup | compatibility/src/version_five/account_blob_v5.rs:37-46 | for every tag: a stored one finds exactly its bytes, one that has a key but is not stored finds nothing, and one that nests beyond nine levels or does not fit panics |
| AccountBlob.LookupAfterDecoding | compatibility/src/version_five/account_blob_v5.rs:24-46 | from resources to a blob, back to a state, and to lookups: all resources are found, no other tag finds anything, tags without a key panic, and no code key is a resource key |
| TransactionManifest.Verify | compatibility/src/version_five/transaction_manifest_v5.rs:37-75 | for every manifest, with and without overflow checks, passing is characterised by what the 64-bit loop accepts, and a failure names the first thing that is wrong, a panic included |
| TransactionManifest.ExplainedOnce | compatibility/src/version_five/transaction_manifest_v5.rs:37-75 | at most one problem explains a refusal, and none a manifest that passes: the report is determined by the first check that fails |
| TransactionManifest.TilesExactly | compatibility/src/version_five/transaction_manifest_v5.rs:37-75 | chunks in the order listed tile the range if and only if the wrapping check accepts them and none but the last ends at the largest version |
| TransactionManifest.CheckedTilesExactly | compatibility/src/version_five/transaction_manifest_v5.rs:37-75 | with overflow checks exactly the tilings that end below the largest version pass |
| TransactionManifest.WrappedManifest | compatibility/src/version_five/transaction_manifest_v5.rs:37-75 | a manifest that passes without overflow checks and is no tiling |
| TransactionManifest.TilesIffPartition | compatibility/src/version_five/transaction_manifest_v5.rs:37-75 | tilings are exactly the ascending partitions of the version range into non-empty intervals |
| TransactionManifest.OneChunkPerVersion | compatibility/src/version_five/transaction_manifest_v5.rs:37-75 | in a tiling every version is in exactly one chunk |
| TransactionManifest.SizesAddUp | compatibility/src/version_five/transaction_manifest_v5.rs:37-75 | the sizes of a tiling's chunks add up to the size of its range |
| ReleaseBundle.GenerateBlob | framework/src/builder/framework_release_bundle.rs:8-20 | appends the byte vector as text, with a new line before every twentieth element |
| ReleaseBundle.GenerateAllCode | framework/src/builder/framework_release_bundle.rs:65-72 | appends a binding and a push for every module, in order |
| ReleaseBundle.GenerateChunks | framework/src/builder/framework_release_bundle.rs:78-92 | every drain is in bounds, and the bindings written are those of the full chunks and the rest |
| ReleaseBundle.GenerateAppends | framework/src/builder/framework_release_bundle.rs:94-100 | appends one statement for every chunk from the second to the last |
| ReleaseBundle.ChunksMeaning | framework/src/builder/framework_release_bundle.rs:78-92 | for metadata of every length, including none and multiples of the chunk size, the chunks joined in order are the metadata and none is longer than 32767 bytes |
| ScriptExample.ChunkLengths | framework/src/builder/framework_release_bundle.rs:78-92 | every chunk but the last has 32767 bytes, the last fewer |
| ScriptExample.LineBreaks | framework/src/builder/framework_release_bundle.rs:8-20 | a byte vector breaks the line before every twentieth element, counting from one, and nowhere else |
| ScriptExample.OpeningIs | framework/src/builder/framework_release_bundle.rs:54-61 | the lines up to the function's head |
| ScriptExample.StatementsAre | framework/src/builder/framework_release_bundle.rs:63-100 | the statements for a module, a chunk and an append, word by word |
| ScriptExample.PublicationIs | framework/src/builder/framework_release_bundle.rs:60-105 | the order of the statements, and the words of the publication |
| ScriptExample.ResolutionIs | framework/src/builder/framework_release_bundle.rs:120-148 | the words of the resolving call in both forms |
| ScriptExample.SentinelIs | framework/src/builder/framework_release_bundle.rs:125 | the bytes taken for an empty hash are the characters of the Move expression |
| ScriptExample.ClosingIs | framework/src/builder/framework_release_bundle.rs:107-115 | the words that record the commit and close the script |
| ReleaseBundle.GenerateNextExecutionHashBlob | framework/src/builder/framework_release_bundle.rs:120-148 | writes the call that resolves the proposal, in the form its branch prescribes |
| ReleaseBundle.LibraAuthorScriptFile | framework/src/builder/framework_release_bundle.rs:22-118 | the writer's output is the whole script text: header, imports, resolution, modules, chunks, appends, publication, commit |
| MoveScript.SkipComment | framework/src/builder/framework_release_bundle.rs:35-54 | a comment line means nothing |
| ScriptParse.ElemsExact | framework/src/builder/framework_release_bundle.rs:8-20 | the printed elements of a vector read back as the bytes, whatever line breaks and margins are between them |
| ScriptParse.BlobExact | framework/src/builder/framework_release_bundle.rs:8-20 | a printed blob is an expression that denotes the bytes |
| ScriptParse.ResolveExact | framework/src/builder/framework_release_bundle.rs:120-148 | both forms of the resolving call denote the proposal, the address and the embedded hash |
| ScriptMeaning.RunCode | framework/src/builder/framework_release_bundle.rs:62-72 | executing the module bindings and pushes collects exactly the modules, in order |
| ScriptMeaning.RunChunks | framework/src/builder/framework_release_bundle.rs:82-92 | executing the chunk bindings binds every chunk to its own name |
| ScriptMeaning.RunAppends | framework/src/builder/framework_release_bundle.rs:94-100 | executing the appends joins all chunks in the first one |
| ScriptMeaning.RunMetadata | framework/src/builder/framework_release_bundle.rs:78-100 | after bindings and appends the first chunk is defined and holds the whole metadata |
| ScriptMeaning.ScriptPublishesPackage | framework/src/builder/framework_release_bundle.rs:22-118 | for every package, executing the generated text resolves the proposal, publishes exactly the package's metadata and modules, and records the commit, through modules it has imported; it is valid if and only if the header holds nothing but comments and the commit is hexadecimal |
| ScriptMeaning.OneLineHeader | framework/src/builder/framework_release_bundle.rs:35-53 | the header is nothing but comments when name, digest and builder commit are on one line |
| ScriptAhead.ExecuteAhead | framework/src/builder/framework_release_bundle.rs:35-54 | a text with a script further down is invalid unless all before it is skipped, so nothing in a header is ever executed |
| ScriptSafety.NothingBeforeResolution | framework/src/builder/framework_release_bundle.rs:54-115 | in the run of every valid text the first call resolves a proposal, the last one and no other records the commit, and each has its import |
| ScriptSafety.RunLawful | framework/src/builder/framework_release_bundle.rs:60-105 | statements never sign before the first resolution, and without a variable that holds the proposal they resolve nothing |
| ScriptMeaning.OpeningExact | framework/src/builder/framework_release_bundle.rs:54-61 | the imports of a generated script are those its calls need, and its function takes the proposal |
| ScriptMeaning.HashArrives | framework/src/builder/framework_release_bundle.rs:120-148 | in the run of every valid script the framework receives the given hash exactly when it does not spell the sentinel text |
| ScriptMeaning.WithoutCommit | framework/src/builder/framework_generate_upgrade_proposal.rs:33-34 | the fallback commit of a repository whose head has none makes every script invalid |
| ScriptMeaning.NameWithLineBreak | framework/src/builder/framework_release_bundle.rs:36-40 | with a line break in the package name the header is nothing but comments if and only if what follows the break is |
| UpgradeProposal.MakeFrameworkUpgradeArtifacts | framework/src/builder/framework_generate_upgrade_proposal.rs:27-132 | outside a repository it panics before the first script; otherwise the loop over the reversed list computes the plan of the list in deploy order, last script first, or the error of the module that fails first |
| UpgradeProposal.DeployChain | framework/src/builder/framework_generate_upgrade_proposal.rs:38-131 | in deploy order the directory of script k is named by the decimal digits of k+1, a dash and the caller's k-th name; the script publishes that module's package and authorizes exactly the hash of script k+1, the last one none |
| UpgradeProposal.CommitOfPlan | framework/src/builder/framework_generate_upgrade_proposal.rs:33-34 | every script of a plan records the commit the repository's head leads to, and where it leads to none every script is invalid |
| UpgradeProposal.FirstHashFixesAll | framework/src/builder/framework_generate_upgrade_proposal.rs:38-131 | two proposals that agree on the first hash have equally many scripts with the same bytecode and the same effects, unless two of their scripts collide |
| UpgradeProposal.HypothesesHold | framework/src/builder/framework_generate_upgrade_proposal.rs:38-131 | two different plans of two scripts each, under one compiler and hash function, meet what that theorem assumes |
| UpgradeProposal.FormattedScript | framework/src/builder/framework_generate_upgrade_proposal.rs:121-128 | what is handed on is the script behind a comment that ends with the hexadecimal digits of its own hash, and does what the script does |
| UpgradeProposal.FileNumbering | framework/src/builder/framework_generate_upgrade_proposal.rs:134-147 | of n scripts, the k-th in deploy order has the digits of k+1 in its directory's name and the digits of n-(k+1) in its file's name |
| UpgradeProposal.DefaultModules | framework/src/builder/framework_generate_upgrade_proposal.rs:19-25 | the three modules upgraded by default, in deploy order |
| Recovery.SumPermutation | tools/genesis/src/supply.rs:71-100 | a total over records does not depend on their order |
| ParseJson.FixSlowWallet | tools/genesis/src/parse_json.rs:22-38 | repairs every overdrawn slow wallet in place and lists exactly the accounts it touched |
| ParseJson.RepairIdempotent | tools/genesis/src/parse_json.rs:22-38 | a second repair changes nothing and reports nothing |
| ParseJson.RepairBounds | tools/genesis/src/parse_json.rs:22-38 | a repaired account has no more unlocked than its balance, and nothing else of the record changes |
| ParseJson.RepairedExactly | tools/genesis/src/parse_json.rs:22-38 | the unlocked amount becomes the smaller of itself and the balance when account, balance and slow wallet are there, and nothing changes otherwise |
| ParseJson.ReportedExactly | tools/genesis/src/parse_json.rs:22-38 | the accounts reported are those of the records that change, in their order |
| ParseJson.DropAccounts | tools/genesis/src/parse_json.rs:47-66 | every listed account's record is replaced in place by a default one with its account and the drop role, and no other changes |
| ParseJson.BuriedExactly | tools/genesis/src/parse_json.rs:47-66 | a dropped record keeps its account, has the drop role and a key of nines, and every other field is the default; other records stay |
| Supply.Supply.IncSupply | tools/genesis/src/supply.rs:28-65 | every field grows by the class of coins the record adds to |
| Supply.PopulateSupplyStats | tools/genesis/src/supply.rs:71-100 | the statistics are the sums over the records |
| Supply.OneRecord | tools/genesis/src/supply.rs:28-65 | what one record adds to each of the seven figures, case by case |
| Supply.StatsAppend | tools/genesis/src/supply.rs:71-100 | the statistics of two lists together are the sums of theirs |
| Supply.SupplySplits | tools/genesis/src/supply.rs:28-65 | total is normal plus slow; slow is locked plus unlocked plus the balances of wallets with nothing unlocked; the validator figures are parts of the slow ones |
| Supply.StatsPermutation | tools/genesis/src/supply.rs:71-100 | no statistic depends on the order of the records |
| Supply.RepairKeepsStats | tools/genesis/src/parse_json.rs:22-38 | repairing slow wallets changes no statistic |
| Supply.DropLowersTotal | tools/genesis/src/parse_json.rs:47-66 | dropping accounts lowers the total by exactly the balances of the dropped records |
| CommWallet.RebuildDonorReceipts | tools/genesis/src/process_comm_wallet.rs:55-85 | the donor map holds the receipts of every record that has any, a later record replacing an earlier one |
| CommWallet.RebuildCwCumuDeposits | tools/genesis/src/process_comm_wallet.rs:88-116 | the wallet map holds the cumulative deposits likewise, and the total is the sum over all records, replaced ones included |
| CommWallet.ProcessDonor | tools/genesis/src/process_comm_wallet.rs:120-150 | one donor's entries credit the wallets they name and collect the others, in order |
| CommWallet.UpdateCwWithDonor | tools/genesis/src/process_comm_wallet.rs:120-150 | all donors in account order give the updated wallets, the audited donors and the list of unmatched destinations |
| CommWallet.PrepareCwAndReceipts | tools/genesis/src/process_comm_wallet.rs:42-53 | the two rebuilt maps, updated with each other |
| CommWalletLaws.DepositorsExact | tools/genesis/src/process_comm_wallet.rs:120-150 | a wallet's depositors are strictly ascending and are exactly the donors whose receipts name it |
| DonorLaws.WalletFromRecords | tools/genesis/src/process_comm_wallet.rs:42-150 | for distinct accounts, in terms of the records: a wallet has its own record's value and index, its depositors are exactly the accounts whose receipts name it, and its audit total is what all receipts say was paid to it |
| DonorLaws.DonorFromRecord | tools/genesis/src/process_comm_wallet.rs:55-150 | a donor has its record's receipts unchanged, and the destinations that are no wallet in their order |
| DonorLaws.NotedInOrder | tools/genesis/src/process_comm_wallet.rs:136-140 | unmatched destinations are noted in the order in which they first come up |
| CommWalletLaws.AuditConserved | tools/genesis/src/process_comm_wallet.rs:120-150 | the summed audit totals grow by exactly the cumulative values of the credited entries; keys, values and indexes stay |
| CommWalletLaws.EntriesAccounted | tools/genesis/src/process_comm_wallet.rs:120-150 | every entry of a donor is either in `audit_not_found` or a credit of its cumulative value to the wallet it names; each audit total grows by exactly the credits to that wallet, and credits and not-found entries are all entries, each once |
| CommWalletLaws.EntriesSeparated | tools/genesis/src/process_comm_wallet.rs:120-150 | credits go to exactly the wallets named, and not-found entries are exactly the named accounts that are no wallet |
| CommWalletLaws.AuditTotalsGrow | tools/genesis/src/process_comm_wallet.rs:120-150 | no audit total is ever larger on the way than at the end, so the 64-bit additions overflow only if a final total does not fit |
| CommWalletLaws.DepositTotalGrows | tools/genesis/src/process_comm_wallet.rs:88-116 | the same for the running deposit total |
| DepositLaws.DepositsConserved | tools/genesis/src/process_comm_wallet.rs:88-116 | the deposit total is the value of the rebuilt wallets and of exactly the entries a later record replaced |
| DepositLaws.NothingReplaced | tools/genesis/src/process_comm_wallet.rs:88-116 | for distinct accounts nothing is replaced |
| DepositLaws.DepositsMigrated | tools/genesis/src/genesis_functions.rs:363-389 | the cumulative values passed to the chain are the deposits of the records less the replaced ones, hence all of them for distinct accounts |
| CommWalletLaws.NotCwExact | tools/genesis/src/process_comm_wallet.rs:120-150 | the list of unmatched destinations has no duplicates and holds exactly the named accounts that are no wallet |
| CommWalletLaws.PreparationPermutation | tools/genesis/src/process_comm_wallet.rs:42-116 | for distinct accounts every permutation of the records gives the same maps and total |
| CommWalletLaws.DroppedNeitherWalletNorDepositor | tools/genesis/src/parse_json.rs:47-66 | after dropping, no dropped account is a wallet or a depositor of one |
| Migration.MigrateOneUser | tools/genesis/src/genesis_functions.rs:100-143 | one call with account, key and balance, or none when one of them is missing |
| Migration.MigrateSlowWallet | tools/genesis/src/genesis_functions.rs:146-184 | one call with unlocked and transferred amounts, gated on a migrated user |
| Migration.MigrateInfraEscrow | tools/genesis/src/genesis_functions.rs:187-222 | one call for every pledge, not gated on a balance |
| Migration.MigrateReceipts | tools/genesis/src/genesis_functions.rs:225-290 | one call with the four receipt lists, gated on a migrated user |
| Migration.MigrateAncestry | tools/genesis/src/genesis_functions.rs:293-339 | one call with the ancestry, gated on a migrated user |
| Migration.MigrateCommunityWallet | tools/genesis/src/genesis_functions.rs:342-360 | one call for the wallet, not gated on a balance |
| Migration.MigrateRecord | tools/genesis/src/genesis_functions.rs:24-95 | one record's calls in their order, or its tombstone alone |
| Migration.MigrateAllUsers | tools/genesis/src/genesis_functions.rs:16-97 | the trace is the records' calls in the order of the records |
| Migration.MigrateCumuDeposits | tools/genesis/src/genesis_functions.rs:363-389 | one call for every rebuilt wallet in account order, with its depositors |
| MigrationLaws.RecordShape | tools/genesis/src/genesis_functions.rs:16-97 | a dropped record gets one tombstone and nothing else; a record with account, key and balance gets exactly one user migration, before its other calls; any other gets none |
| MigrationLaws.CallsOfAccount | tools/genesis/src/genesis_functions.rs:16-97 | with distinct accounts the calls about an account are exactly those of its record |
| MigrationLaws.AccountShape | tools/genesis/src/genesis_functions.rs:16-97 | what one account receives in the whole trace: its tombstone alone, or exactly one user migration, or none |
| MigrationLaws.DroppedGetTombstones | tools/genesis/src/parse_json.rs:47-66 | accounts dropped before the migration receive their tombstones and nothing else |
| MigrationLaws.TraceUsersFirst | tools/genesis/src/genesis_functions.rs:16-97 | in the trace of any list every slow-wallet, ancestry and receipts call follows a user migration of the same account |
| MigrationLaws.BalancesConserved | tools/genesis/src/genesis_functions.rs:100-143 | the balances passed on and the balances stranded add up to the total supply, for all lists |
| MigrationLaws.WholeSupplyMigrated | tools/genesis/src/genesis_functions.rs:100-143 | the balances passed on are the whole supply exactly when every record that holds coins has an account and a key and is not dropped |
| CallContents.RecordCallsExactly | tools/genesis/src/genesis_functions.rs:16-360 | which calls a record makes, by module, function and every argument, and exactly when |
| CallContents.EscrowContents | tools/genesis/src/genesis_functions.rs:187-222 | the arguments of the call for a pledge |
| CallContents.RecordCallsCount | tools/genesis/src/genesis_functions.rs:16-97 | how many calls a record makes, the pledges' last and in their order |
| CallContents.RecordCallsRanked | tools/genesis/src/genesis_functions.rs:24-95 | the order of the kinds of calls of a record |
| CallContents.TraceAppend | tools/genesis/src/genesis_functions.rs:16-97 | the calls of the records follow each other in the order of the records |
| CallContents.SlowWalletsConserved | tools/genesis/src/genesis_functions.rs:146-184 | the amounts unlocked and transferred over the whole trace are those of the slow wallets of migrated users |
| CallContents.CumulativeCallsExactly | tools/genesis/src/genesis_functions.rs:363-389 | the arguments of the call for each rebuilt wallet |
| EntryFunctions.RoundTrip | framework/cached-packages/src/libra_framework_sdk_builder.rs:628-650 | every argument value is read back from its encoding |
| EntryFunctions.ArgumentBytes | framework/cached-packages/src/libra_framework_sdk_builder.rs:628-650 | the bytes of booleans, bytes, addresses and byte strings |
| EntryFunctions.ParamsAreFields | framework/cached-packages/src/libra_framework_sdk_builder.rs:37-394 | the fields of every variant are of the types the function it is encoded by takes |
| EntryFunctions.FromBytesExactly | framework/cached-packages/src/libra_framework_sdk_builder.rs:1628-1640 | an argument decodes to a value exactly when it is the value's encoding |
| EntryFunctions.KeysUnique | framework/cached-packages/src/libra_framework_sdk_builder.rs:2202-2398 | no two variants share a joined name |
| EntryFunctions.DispatchExactly | framework/cached-packages/src/libra_framework_sdk_builder.rs:2202-2398 | the map filled by inserts finds a variant exactly under its joined name |
| EntryFunctions.DecodeArgsExactly | framework/cached-packages/src/libra_framework_sdk_builder.rs:1628-2191 | arguments decode to values exactly when the first ones are the values' encodings; surplus ones are ignored |
| EntryFunctions.DecodeExactly | framework/cached-packages/src/libra_framework_sdk_builder.rs:594-608 | which payloads decode to a call: those with its joined name and its encoded arguments in front, and no others |
| EntryFunctions.DecodeEncode | framework/cached-packages/src/libra_framework_sdk_builder.rs:396-608 | decoding an encoded call returns the call |
| EntryFunctions.ReencodeExactly | framework/cached-packages/src/libra_framework_sdk_builder.rs:396-608 | encoding a decoded payload gives it back exactly when it used address 0x1, the generated names, no type arguments and no surplus arguments |
| EntryFunctions.OtherSplitDecodes | framework/cached-packages/src/libra_framework_sdk_builder.rs:594-608 | another split of a joined name, at any address, decodes to the same call |

## Left out

- CommWallet.RebuildCwCumuDeposits: records with deposits have an account (the code panics otherwise); the total is an exact sum, which the code computes in 64 bits and which overflows there only if it does not fit at the end.
- CommWallet.RebuildDonorReceipts: records with receipts have an account; the code panics otherwise.
- CommWallet.ProcessDonor: the cumulative list reaches every credited destination (the code panics otherwise); audit totals are exact sums, likewise.
- CommWallet.UpdateCwWithDonor: as for one donor.
- CommWallet.PrepareCwAndReceipts: records with receipts or deposits have an account, and their cumulative lists reach every credited destination; the code panics without. Both totals are exact sums.
- Migration.MigrateRecord: a community wallet without an account ends the program, so such a record is excluded.
- Supply.Supply.IncSupply: the statistics are exact integers; the code computes in floating point, and its rounding is not modelled.
- Supply.PopulateSupplyStats: exact sums in place of floating-point accumulation; the printing of the statistics is left out.
- HashValue.BitIterator.Next: forward iteration only; `next_back` shrinks the range before it checks an index against it and trips its own assertion.
- ReleaseBundle.LibraAuthorScriptFile: the Move model's `CodeWriter` is not part of the repository; the model of it writes four spaces a level at the start of a line and expects line breaks only at the end of what it is handed. The text is returned instead of written to a file.
- ScriptMeaning.ScriptPublishesPackage: address and commit are words, as an address and a commit id or `none` are. The reading of Move covers the statements governance scripts use, with the generator's spacing inside calls; it is no model of the Move language beyond them, and of what the framework does with the calls it models the order and the arguments only.
- UpgradeProposal.DeployChain: name, digest and builder commit are on one line.
- UpgradeProposal.MakeFrameworkUpgradeArtifacts: building packages, compiling scripts and SHA3 are functions given from outside; that building can be forced to an incompatible policy is part of what the build function returns. Directories, file writing and console output are left out.
- UpgradeProposal.FirstHashFixesAll: that no script of one proposal collides with one of the other, that hashes have 32 bytes, and that the bytecode of each script does what its text does are hypotheses; `UpgradeProposal.HypothesesHold` meets them with two different plans.
- BCS container depth: the limit of 500 nested containers is not modelled; tags stay far below it.
- Human-readable serde forms: JSON strings for addresses, event keys and hashes repeat the hexadecimal forms.
- Account resources: decoding a resource's bytes into a struct, and the errors of `get_resource`, are left out; lookup ends at the bytes.
- Snapshot reading: manifests, chunk files and their asynchronous reading are I/O.
- Reading the recovery and drop-list files: JSON parsing is I/O; the models start from the parsed records and accounts.
- The Move VM: calls are entries of a trace, and a call that aborts ends the program.
- `Script` and multisig payloads: they decode to nothing, and are one constructor in the model.
- Wizards, command lines, network queries, the v6 and v7 copies of the builder and the audit of the migrated state: user interface and database plumbing.
