# XenoLib decode passes, in Dafny

XenoLib reads the binary asset formats of the Xenoblade games: model containers (MXMD), map containers (MSMD), instance and terrain containers (MSIM, MSTM), shader containers (MTHS), streaming resources (DRSM), key/value tables (BDAT), pointer-table blobs (BC), textures (LBIM, MTXT), archive name tables (ARH) and the TFBH serialiser of the tools.

Most formats are loaded the same way. The file is read into memory, and a `ProcessClass` pass rewrites it in place. The pass:

- checks the magic and the version;
- detects the byte order when `AutoDetectEndian` is set;
- byte-swaps big-endian fields into host order;
- turns stored offsets into pointers with `Fixup(base)`;
- calls the passes of the records those pointers lead to.

Exclusion flags in `userData` make a header reset the pointers of subtrees the caller does not want. Every pass begins with the guards of `ProcessFlags`.

The model follows the library file by file:

- **The buffer** (`Memory`). The file image is a `Buffer` object: an array of bytes plus a map from pointer-field positions to the reference each field holds. A reference is null, a position, or wild for a field that was never fixed up.
  - Each pass is a function from the bytes and references to a `Step`: the outcome, the new bytes and the new references.
  - A method on the `Buffer` is proved to end in the state that function gives.
  - Lemmas then state what the function does: what is swapped, what each pointer refers to, what is refused and when, and what no pass changes.
- **Byte swap and fixup** (`Bytes`, `Memory`). These come from libraries that are not part of this model (`datas/endian.hpp`, `datas/pointer.hpp`). A field swap is the reversal of the field's bytes, and `Fixup(base)` yields `base + offset`, with 0 staying null.
- **Errors**. Exceptions, failed assertions and undefined behaviour are all `Error` values (`Outcomes`).
- **Lookups, views and loaders**. The BDAT lookups, the model view adapters and the MSIM and MSTM loaders work on values, as the source's adapters read records that are already decoded.
- **Textures**. The LBIM and MTXT decoders copy blocks into an output buffer, block by block.
- **ARH names**. The trie-walking name decoder follows the archive extractor's loops.

## Model

| member | source | states |
|---|---|---|
| `Flags.ProcessFlags.NoAutoDetect` | source/core.cpp:21-25 | Fails exactly when AutoDetectEndian is set, with "Class does not support AutoDetectEndian". |
| `Flags.ProcessFlags.NoProcessDataOut` | source/core.cpp:26-30 | Fails exactly when ProcessDataOut is set, with its message. |
| `Flags.ProcessFlags.NoBigEndian` | source/core.cpp:31-35 | Fails exactly when EnsureBigEndian is set, with its message. |
| `Flags.ProcessFlags.NoLittleEndian` | source/core.cpp:36-40 | Fails exactly when EnsureBigEndian is not set, with its message. |
| `Flags.EndianGuardsExclusive` | source/core.cpp:31-40 | Exactly one of `NoBigEndian` and `NoLittleEndian` passes on any flags. |
| `Flags.GuardsOnlyReadTheirFlag` | source/core.cpp:21-40 | Each guard depends on its own flag only: setting or clearing another flag, or changing the base or the user data, does not change its result. |
| `Flags.ProcessFlags.With` | include/xenolib/core.hpp:35-39 | adding a flag adds exactly it and keeps the base and the user data |
| `Flags.ProcessFlags.Without` | include/xenolib/core.hpp:35-39 | removing a flag removes exactly it and keeps the base and the user data |
| `Flags.ProcessFlags.Rebased` | include/xenolib/core.hpp:37 | setting the base keeps the flags and the user data |
| `Bdat.ValueSwapWidth` | source/bdat.cpp:263-282 | `SwapValue` accepts exactly the types u8 to float. Any other type fails with "Unhandled data type". |
| `Bdat.ArrayItemSize` | source/bdat.cpp:292-311 | `typeLen` is between 1 and 4 bytes for every type it accepts. |
| `Bdat.ArrayItemsSwapLikeValues` | source/bdat.cpp:259-311 | The `typeLen` switch and the `SwapValue` switch accept the same types and fail with the same error. The 8-bit types have stride 1 and swap nothing. Every other type's stride equals the width `SwapValue` swaps. |
| `Bdat.GuardsPassExactly` | source/bdat.cpp:183-185 | `NoProcessDataOut`, `NoAutoDetect` and `NoLittleEndian` all pass exactly when the flags request big-endian and neither of the other two. |
| `Bdat.ProcessFlagTypeDesc` | source/bdat.cpp:172-179 | The new bytes and references equal `FlagTypeDescPass`: the guards run first. Then belongsTo, null and value are swapped. The `null == 0` assertion (bdat.cpp:141) is checked. Finally belongsTo is fixed up against `flags.base`. |
| `Bdat.ProcessBaseTypeDesc` | source/bdat.cpp:181-200 | The new bytes and references equal `BaseTypeDescPass`. The descriptor's first byte selects the action: Default swaps its offset, Array swaps its count and offset, and Flag runs the flag pass. Any other value fails with "Undefined base type", and a descriptor outside the buffer fails with out of bounds. |
| `Bdat.BaseTypeDescBytes` | source/bdat.cpp:187-199 | A type-descriptor pass changes no byte outside the 8 bytes of the largest descriptor at `d`. |
| `Bdat.BaseTypeDescRefs` | source/bdat.cpp:187-199 | The only reference a type-descriptor pass may change is a Flag descriptor's belongsTo. The pass succeeds only on Default, Array or Flag. |
| `Bdat.ProcessKeyDesc` | source/bdat.cpp:202-215 | The new bytes and references equal `KeyDescPass`: the guards run, then the three offsets are swapped and fixed up against `flags.base`, and the type descriptor that typeDesc now refers to is processed. A null or wild typeDesc fails. |
| `Bdat.KeyDescPassFound` | source/bdat.cpp:208-214 | If a key-descriptor pass succeeds, then the guards passed and the descriptor fits. Also, typeDesc (the swapped offset plus `flags.base`) points inside the buffer at a descriptor of a known base type. |
| `Bdat.KeyDescPassFrame` | source/bdat.cpp:202-215 | Whether it succeeds or fails, a key-descriptor pass changes bytes only inside the key descriptor and inside the type descriptor its typeDesc refers to. |
| `Bdat.TypeDescResolved` | source/bdat.cpp:210-214 | After the fixups, typeDesc refers to `flags.base` plus the swapped 16-bit offset. That is the descriptor the pass then processes. |
| `Bdat.Advance` | source/bdat.cpp:253 | Pointer arithmetic `values + stride * k` moves a real address by `n`. A null or wild pointer stays as it is. |
| `Bdat.ValueStepMeaning` | source/bdat.cpp:259-283 | Swapping a value of a swapped type succeeds exactly when the value lies in the buffer. Afterwards the value reads in host order as the big-endian value that was stored, and no other byte changes. A string offset is fixed up against `flags.base`. A failed swap changes nothing. |
| `Bdat.SwapValue` | source/bdat.cpp:259-283 | The new bytes and references equal `ValueStep` for the value's type and address. |
| `Bdat.Fitting` | source/bdat.cpp:313-315 | Counts the array items that fit, in order, before the first item outside the buffer. All counted items lie in the buffer, and if the count is below `n`, the next item does not fit. |
| `Bdat.ArrayStepMeaning` | source/bdat.cpp:290-316 | An array of a swapped type is swapped as a whole exactly when it lies in the buffer. Otherwise the pass fails with out of bounds. Either way, no byte outside the array changes. |
| `Bdat.SwapArrayItems` | source/bdat.cpp:313-315 | The new bytes and references equal `ArrayStep`: the items `typeLen` apart form one run of swapped words and each string item is fixed up. The loop stops at the first item outside the buffer, leaving the items before it swapped. |
| `Bdat.SwapArrayItem` | source/bdat.cpp:314 | One iteration of the item loop: it keeps the loop invariant, or it fails with the state `ArrayStep` gives. |
| `Bdat.Guards` | source/bdat.cpp:183-185 | the guards fail only with a runtime error, the first failing guard's message |
| `Bdat.FlagTypeDescPass` | source/bdat.cpp:172-179 | the flag descriptor pass, as a function of the buffer, keeps its length |
| `Bdat.BaseTypeDescPass` | source/bdat.cpp:181-200 | the base type descriptor pass keeps the buffer length |
| `Bdat.KeyDescPass` | source/bdat.cpp:202-215 | the key descriptor pass keeps the buffer length |
| `Bdat.ValueStep` | source/bdat.cpp:259-283 | the swap of one value keeps the buffer length |
| `Bdat.ArrayStep` | source/bdat.cpp:290-316 | the array loop keeps the buffer length |
| `BdatTable.Between` | source/bdat.cpp:236-237 | `DecryptSection(name, unk1Offset)` walks from `begin` to `end`. A wild pointer is an error. A null `begin` lies below every address. |
| `BdatTable.Pool` | source/bdat.cpp:239-241 | The string pool is `[strings, strings + stringsSize)`. A null or wild strings pointer is an error. |
| `BdatTable.DecryptionTouchesOnlySections` | source/bdat.cpp:236-242 | Decryption changes a byte only inside the name section `[name, unk1Offset)`, or inside the string pool when the decrypted stringsSize is not zero. |
| `BdatTable.DecryptSpan` | source/bdat.cpp:236-241 | One `DecryptSection` call succeeds exactly when its range lies in the buffer. It then leaves the buffer `BdatCipher.DecryptedSection` gives. Otherwise it fails with out of bounds and changes nothing. |
| `BdatTable.DecryptSections` | source/bdat.cpp:236-242 | The two decryption calls, on the header's fixed-up pointers, produce exactly the outcome and the bytes `Decryption` gives. |
| `BdatTable.HeaderCheckExactly` | source/bdat.cpp:219-225 | A header passes its checks exactly when it fits, has the id "BDAT" and the flags request big-endian only. A wrong id is reported, with the id that was read, before any flag problem. |
| `BdatTable.HeaderPrologue` | source/bdat.cpp:217-234 | A header that fails the checks is left untouched. Otherwise the header is swapped. The pass succeeds exactly when numEncKeys is 2, in which case the five pointers are fixed up against the header. |
| `BdatTable.SwapHeader` | source/bdat.cpp:227-234 | The header bytes become `SwappedHeader`, and the numEncKeys assertion decides the outcome. On success the references become `FixedHeader`. |
| `BdatTable.HeaderPointersResolved` | source/bdat.cpp:232-234 | After the fixups, each of the five pointers is null when its swapped offset is 0, and otherwise refers to the header's address plus that offset. |
| `BdatTable.ProcessKeyDescs` | source/bdat.cpp:244-247 | The new bytes and references equal `KeyDescsPass`: each descriptor `ck[k]` is processed in order, and the first failure stops the loop. |
| `BdatTable.KeyDescsFit` | source/bdat.cpp:244-247 | When the descriptor loop completes, the guards passed and all descriptors from `k` up to `n` lie in the buffer, one after another. |
| `BdatTable.SwapKeyValue` | source/bdat.cpp:256-322 | The new bytes and references equal `KeyValueStep` for the key's type descriptor. A Default value is swapped as one value and a Flag value is left as it is. An Array value has each of its items swapped. Any other base type fails with "Unhandled base data type". |
| `BdatTable.RowsWithoutKeys` | source/bdat.cpp:252-255 | A table with no keys is left unchanged whatever its row count. A table with rows and keys but unusable key descriptors fails on its first value and changes nothing. |
| `BdatTable.SwapRow` | source/bdat.cpp:255-323 | The new bytes and references equal `RowPass`: each key's value in the row is swapped in order, and the first failure stops the loop. |
| `BdatTable.SwapRowKey` | source/bdat.cpp:256-322 | The value of key `k` in the row: either it fails with the state `RowPass` gives, or it leaves the state from which the rest of the row continues. |
| `BdatTable.SwapValues` | source/bdat.cpp:249-324 | The new bytes and references equal `RowsPass`: each of the numKeyValues rows, `kvBlockStride` bytes apart, is processed in order, and the first failure stops the loop. |
| `BdatTable.HeaderPassMeaning` | source/bdat.cpp:217-242 | A header rejected by the checks is left as it is. If the header pass succeeds, then it found a BDAT header accepted by the flags, with two keys. Its name section and string pool were decrypted without error, between the header's address plus the swapped offsets. |
| `BdatTable.HeaderSectionRefs` | source/bdat.cpp:232-237 | The name, unk1Offset and strings pointers that decryption uses are the header's address plus the swapped offsets. |
| `BdatTable.HeaderStages` | source/bdat.cpp:217-247 | If the header pass succeeds, then it passed its checks and its assertion, and decryption on the fixed-up pointers succeeded. |
| `BdatTable.ProcessHeader` | source/bdat.cpp:217-325 | The new bytes and references equal `HeaderPass`: the checks, the swap, the numEncKeys assertion and the fixups, then `Decryption` of the two sections, then `KeyDescsPass`, then `RowsPass`. |
| `BdatTable.ProcessSections` | source/bdat.cpp:236-324 | Once the header is swapped and fixed up, the rest of the pass equals `HeaderSections`. |
| `BdatTable.ProcessTables` | source/bdat.cpp:244-324 | The descriptor loop followed by the value loops equals `HeaderTables`. |
| `BdatTable.Detected` | source/bdat.cpp:331-337 | Byte-order detection drops AutoDetectEndian when it is set, and keeps the base pointer and the user data. |
| `BdatTable.DetectedByteOrder` | source/bdat.cpp:329-339 | With auto-detection, a collection passes the byte-order guard exactly when numDatas exceeds 0x10000 or big-endian was already requested. Without auto-detection, the flags pass through unchanged. |
| `BdatTable.DefaultFlagsDetect` | source/bdat.cpp:331-339 | With the default flags, a collection is accepted exactly when numDatas, read before the swap, exceeds 0x10000. |
| `BdatTable.ProcessEntry` | source/bdat.cpp:343-347 | The new bytes and references equal `EntryPass`: the entry is swapped and fixed up against the collection, and the header it refers to is processed. |
| `BdatTable.EntriesSnoc` | source/bdat.cpp:343-347 | The loop up to entry `i + 1` is the loop up to entry `i` followed by entry `i`. So header `i` is processed after all headers before it, and only if they all succeeded. |
| `BdatTable.EntriesFit` | source/bdat.cpp:343-347 | When the entry loop completes, the whole header table up to entry `n` lies in the buffer. |
| `BdatTable.CollectionPassMeaning` | source/bdat.cpp:327-348 | With ProcessDataOut set, or a byte order the detection rejects, the collection is left as it is. If the pass succeeds, the collection was read as big-endian and its whole header table, of the swapped numDatas entries, lies in the buffer. |
| `BdatTable.ProcessCollection` | source/bdat.cpp:327-348 | The new bytes and references equal `CollectionPass`: detection, the swap of numDatas and fileSize, then `EntriesPass` over all entries. |
| `BdatTable.ProcessEntries` | source/bdat.cpp:343-347 | The entry loop equals `EntriesPass` over the collection's `n` entries. |
| `BdatTable.Decryption` | source/bdat.cpp:236-242 | decrypting the two sections keeps the buffer length |
| `BdatTable.SwappedHeader` | source/bdat.cpp:227-229 | the header's swap keeps the buffer length |
| `BdatTable.HeaderCheck` | source/bdat.cpp:219-225 | when the checks pass the header lies in the buffer |
| `BdatTable.KeyDescsPass` | source/bdat.cpp:244-247 | the key descriptor loop keeps the buffer length |
| `BdatTable.KeyValueStep` | source/bdat.cpp:256-322 | the swap of one value of one row keeps the buffer length |
| `BdatTable.RowPass` | source/bdat.cpp:255-323 | the loop over the keys of one row keeps the buffer length |
| `BdatTable.RowsPass` | source/bdat.cpp:249-324 | the loop over the rows keeps the buffer length |
| `BdatTable.HeaderPass` | source/bdat.cpp:217-325 | the header pass keeps the buffer length |
| `BdatTable.HeaderSections` | source/bdat.cpp:236-324 | the decryption and the tables keep the buffer length |
| `BdatTable.HeaderTables` | source/bdat.cpp:244-324 | the key descriptors and the rows keep the buffer length |
| `BdatTable.EntryPass` | source/bdat.cpp:343-347 | one entry of the collection keeps the buffer length, given a header pass that keeps it |
| `BdatTable.EntriesPass` | source/bdat.cpp:343-347 | the entry loop keeps the buffer length, given a header pass that keeps it |
| `BdatTable.CollectionPass` | source/bdat.cpp:327-348 | the collection pass keeps the buffer length |
| `BdatCipher.DecryptEncrypt` | source/bdat.cpp:56-82 | Decrypting what was encrypted under the same starting keys returns the plaintext. |
| `BdatCipher.EncryptDecrypt` | source/bdat.cpp:56-82 | Encrypting what was decrypted under the same starting keys returns the ciphertext. |
| `BdatCipher.KeyAtTail` | source/bdat.cpp:59-65 | The key schedule is recursive: dropping the first byte advances key 0 by that byte and swaps the roles of the two keys. |
| `BdatCipher.DecryptAt` | source/bdat.cpp:59-65 | Closed form of decryption: byte `i` is XORed with key `i mod 2`. That key started at its complemented `encKeys` value and has since grown by every earlier ciphertext byte of the same parity. |
| `BdatCipher.EncryptAt` | source/bdat.cpp:76-81 | Closed form of encryption: byte `i` is XORed with a key that has grown by the earlier ciphertext bytes of the same parity, which are the bytes encryption itself wrote. |
| `BdatCipher.DecryptedSectionFrame` | source/bdat.cpp:56-66 | `DecryptSection` changes only the bytes in `[begin, end)`. An empty range changes nothing. |
| `BdatCipher.DecryptedSectionAt` | source/bdat.cpp:56-66 | Byte by byte, the buffer after `DecryptSection` is the decryption of the section under the complemented `encKeys`. |
| `BdatCipher.DecryptSection` | source/bdat.cpp:56-66 | The in-place loop leaves exactly `DecryptedSection`. |
| `BdatCipher.KeysStep` | source/bdat.cpp:61-63 | `curKey[index % 2] += c` keeps both running keys equal to the closed-form schedule. |
| `BdatCipher.SetKeys` | source/bdat.cpp:72-73 | `encKeys[0] = rndKey` and `encKeys[1] = rndKey >> 16` store the low byte of each value. |
| `BdatCipher.EncryptedSectionAt` | source/bdat.cpp:68-82 | Byte by byte, the buffer after `EncryptSection` has the new keys, and its section is the encryption of the old section under them. |
| `BdatCipher.EncryptSection` | source/bdat.cpp:68-82 | The in-place encryption leaves exactly `EncryptedSection` for the random key `rndKey`. |
| `BdatCipher.EncryptRange` | source/bdat.cpp:76-81 | The encryption loop writes the encrypted section into `[begin, end)` and changes nothing else. |
| `BdatCipher.SectionRoundTrip` | source/bdat.cpp:56-82 | Encrypting a section in place and then decrypting it restores the buffer, as long as the section does not cover the header's keys. The only remaining difference is the new keys. |
| `BdatCipher.Decrypt` | source/bdat.cpp:59-65 | decryption keeps the length |
| `BdatCipher.Encrypt` | source/bdat.cpp:76-81 | encryption keeps the length |
| `BdatCipher.DecryptedSection` | source/bdat.cpp:56-66 | decrypting a section keeps the buffer length |
| `BdatCipher.EncryptedSection` | source/bdat.cpp:68-82 | encrypting a section keeps the buffer length |
| `BdatLookup.CString` | source/bdat.cpp:87 | The string a name pointer refers to is the bytes up to the first NUL. A string without a NUL before the end of the buffer is out of bounds. |
| `BdatLookup.IsString` | source/bdat.cpp:48-49 | A descriptor is a string exactly when it is a Default descriptor of type StringPtr. |
| `BdatLookup.Stored` | source/bdat.cpp:35-43 | A stored value can be compared exactly when its bytes lie in the buffer. |
| `BdatLookup.KVPairEqualsMeaning` | source/bdat.cpp:25-53 | The intended `KVPair::operator==(Value)` returns false for a non-Default descriptor. An integer matches exactly when its stored bytes equal the same number of low bytes of the probe, all four for the 32-bit types. A string is an error, and an unknown type never matches. |
| `BdatLookup.TextEquals` | source/bdat.cpp:48-49 | A string comparison on a non-string descriptor is the "Invalid call for string comparison" error. A match means the string the value refers to is the probe. |
| `BdatLookup.ComparisonsSplit` | source/bdat.cpp:48-49 | The two comparisons split the descriptors: a string descriptor cannot be compared with a `Value`, and nothing else can be compared with a string. |
| `BdatLookup.CellOf` | source/bdat.cpp:107 | A row's cell is a real address exactly when the row pointer is one. |
| `BdatLookup.KeyNamed` | source/bdat.cpp:87 | A key descriptor matches exactly when the string its name field refers to is the probe. |
| `BdatLookup.TableNamed` | source/bdat.cpp:128 | A table header matches exactly when the string its name field refers to is the probe. |
| `BdatLookup.First` | source/bdat.cpp:84-93 | The linear search returns the first match. Every earlier candidate failed to match. A miss means no candidate matched. An error is that of the first candidate that could not be examined. |
| `BdatLookup.FirstMeaning` | source/bdat.cpp:84-134 | The same statement about the three searches, in terms of the candidates' `Matches`. |
| `BdatLookup.FoundKeyNamed` | source/bdat.cpp:84-93 | The key that intended `FindKey` returns is descriptor `k`, which carries the name, and no earlier descriptor does. A null result means no descriptor carries it. |
| `BdatLookup.FindKey` | source/bdat.cpp:84-93 | The loop returns `FoundKey`: the intended result. The code as written is `FoundKeyAsWritten`, and `FindKeyAsWrittenMisnames` states the difference. |
| `BdatLookup.FindKeyAsWrittenMisnames` | source/bdat.cpp:84-93 | As written, `FindKey` can only return the first descriptor. Whenever the named key is a different one, the descriptor returned carries a different name. |
| `BdatLookup.FoundBlockMatches` | source/bdat.cpp:95-115 | The row that intended `FindBlock` returns is row `b`. Its cell for the key holds the probe, and no earlier row's cell does. |
| `BdatLookup.FindBlock` | source/bdat.cpp:95-115 | The loop returns `FoundBlock`: the intended result. The code as written is `FoundBlockAsWritten`, and `FindBlockAsWrittenReturnsFirst` states the difference. |
| `BdatLookup.FindBlockAsWrittenReturnsFirst` | source/bdat.cpp:95-115 | As written, `FindBlock` can only return the first row of the table, whichever row matched. |
| `BdatLookup.KVPairEqualsAsWrittenCollides` | source/bdat.cpp:41-43 | As written, the U32 value 0x10000 equals the probe 0, because only the low 16 bits are compared. Compared on all 32 bits, they differ. |
| `BdatLookup.FoundData` | source/bdat.cpp:126-134 | A table that `FindData` finds belongs to a collection that lies in the buffer. |
| `BdatLookup.FoundDataNamed` | source/bdat.cpp:126-134 | The header that `FindData` returns is table `i` of the collection, which carries the name, and no earlier table does. |
| `BdatLookup.FindData` | source/bdat.cpp:126-134 | The loop over the collection's tables returns `FoundData`. |
| `BdatLookup.StringAt` | source/bdat.cpp:87 | a string is read only through a pointer that was fixed up to a position |
| `Arh.ReadHeader` | toolset/arh/extract_arh.cpp:44-46 | Reading the 40-byte header succeeds exactly when the file holds 40 bytes. |
| `Arh.Signed32` | include/xenolib/arh.hpp:42-45 | A node field, read as `int32`, lies in the signed 32-bit range. |
| `Arh.ReadWords` | toolset/arh/extract_arh.cpp:57-62 | `ReadContainer` of `n` words succeeds exactly when they lie in the file. The words are then the little-endian words stored there, in order. |
| `Arh.ReadNodes` | toolset/arh/extract_arh.cpp:68-70 | Reading `n` nodes succeeds exactly when they lie in the file. Node `i` is then the pair of words at `8 * i`. |
| `Arh.XorWordsInvolutive` | toolset/arh/extract_arh.cpp:64-66 | XORing the tail words with the key twice restores them, so the de-obfuscation is its own inverse. |
| `Arh.XorNodesInvolutive` | toolset/arh/extract_arh.cpp:72-75 | XORing both fields of every node with the key twice restores the trie. |
| `Arh.DecodeTables` | toolset/arh/extract_arh.cpp:43-75 | Decoding succeeds only on a header whose id is "arh1". A wrong id fails with that id. |
| `Arh.DecodeTablesMeaning` | toolset/arh/extract_arh.cpp:57-75 | The decoded tail words and trie nodes, XORed again with the key (the first tail word XORed with keySeed), give the words and nodes stored in the file. The file count is the header's. |
| `Arh.ChainInRange` | toolset/arh/extract_arh.cpp:90-95 | Every index on a chain of parent links is a node other than 0. |
| `Arh.WalkChain` | toolset/arh/extract_arh.cpp:87-95 | Following a chain of parent links that ends in 0 spells exactly the chain's characters: parent `j`'s `a` XORed with the index before it. |
| `Arh.WalkEnds` | toolset/arh/extract_arh.cpp:87-95 | Conversely, a walk that ends has followed such a chain, no longer than the number of nodes, and spelled that chain's characters. |
| `Arh.BuildPath` | toolset/arh/extract_arh.cpp:87-95 | The `while (parentId)` loop returns `Walk`: the spelled characters, out of bounds for a link outside the trie, or a cycle error after as many links as the trie has nodes. |
| `Arh.CycleLinks` | toolset/arh/extract_arh.cpp:90-95 | The walk reports a cycle only after following `fuel` links, each of them, and the one it stops at, to a node other than 0. |
| `Arh.Pigeonhole` | toolset/arh/extract_arh.cpp:90-95 | `n` indices drawn from the `n - 1` values 1 to n - 1 repeat one. This is why as many links as the trie has nodes are enough for the walk. |
| `Arh.CycleEndless` | toolset/arh/extract_arh.cpp:90-95 | When `BuildPath` reports a cycle, some parent index repeats within as many links as the trie has nodes, and the chain never reaches a link of 0. So the source's loop would never end. |
| `Arh.HopRepeats` | toolset/arh/extract_arh.cpp:90-95 | Past a repeated index, every later index on the chain is one already seen among the first `j` links. |
| `Arh.TailOfMeaning` | toolset/arh/extract_arh.cpp:83-85 | A leaf's tail is the bytes from `-a - 4` up to the first NUL, and its file index is the four bytes after that NUL. A tail that starts before the buffer, has no NUL, or has no room for the index is out of bounds. |
| `Arh.LeafNameMeaning` | toolset/arh/extract_arh.cpp:82-99 | A leaf whose name is stored followed a chain of parent links ending in 0 and found its tail's NUL. It then sets entry `fileIndex` of the name table to the reversed spelled prefix followed by the tail. |
| `Arh.NamesStayFailed` | toolset/arh/extract_arh.cpp:81-102 | Once the loop over the trie has failed at a node, processing more nodes does not change the failure. |
| `Arh.NoLeaves` | toolset/arh/extract_arh.cpp:81-102 | Nodes that are not leaves leave the name table as it is. |
| `Arh.Extract` | toolset/arh/extract_arh.cpp:43-102 | A successful extraction decoded the tables and yields one name per file of the header. |
| `Arh.XorTail` | toolset/arh/extract_arh.cpp:64-66 | The in-place loop over the tail words leaves `XorWords` of the old words. |
| `Arh.XorTrie` | toolset/arh/extract_arh.cpp:72-75 | The in-place loop over the trie leaves `XorNodes` of the old nodes. |
| `Arh.LoadTables` | toolset/arh/extract_arh.cpp:44-75 | Reading the header, the key and the two tables returns `DecodeTables`. |
| `Arh.ExtractNames` | toolset/arh/extract_arh.cpp:77-102 | The loop over the trie returns `Names` over all nodes, starting from `numFiles` empty names. |
| `Arh.StoreName` | toolset/arh/extract_arh.cpp:82-99 | Handling one node succeeds exactly when `NameStep` does, and the name table then becomes `NameStep`'s. On failure the error is `NameStep`'s. |
| `Arh.ExtractFile` | toolset/arh/extract_arh.cpp:43-102 | The whole name extraction returns `Extract`. |
| `Arh.XorWords` | toolset/arh/extract_arh.cpp:64-66 | XORing every tail word keeps their number |
| `Arh.XorNodes` | toolset/arh/extract_arh.cpp:72-75 | XORing every node keeps their number |
| `Arh.TailBytes` | toolset/arh/extract_arh.cpp:77 | the tail buffer seen as characters holds four bytes per word |
| `Arh.Walk` | toolset/arh/extract_arh.cpp:90-95 | the walk spells at most as many characters as it may take links |
| `Arh.Spelled` | toolset/arh/extract_arh.cpp:92-94 | a chain spells one character per parent |
| `Arh.NulFrom` | toolset/arh/extract_arh.cpp:83-84 | the first NUL at or after a position, or out of bounds exactly when none follows it |
| `Arh.TailOf` | toolset/arh/extract_arh.cpp:83-85 | a tail that is found lies, with its NUL and the four bytes after it, inside the tail buffer |
| `Arh.LeafName` | toolset/arh/extract_arh.cpp:82-99 | storing a leaf's name keeps the number of names |
| `Arh.NameStep` | toolset/arh/extract_arh.cpp:81-100 | one iteration of the loop over the trie keeps the number of names |
| `Arh.Names` | toolset/arh/extract_arh.cpp:77-102 | the loop over the trie keeps the number of names |
| `Bc.Add64` | source/bc.cpp:16-20 | `+= base` on a 64-bit word wraps modulo 2^64 and is exact when there is no overflow. |
| `Bc.AddBaseMeaning` | source/bc.cpp:16-20 | Adding the base to the word at `a` leaves that word holding the old value plus the base modulo 2^64, and changes no other byte. |
| `Bc.Guards` | source/bc.cpp:12-14 | The pass continues exactly when none of ProcessDataOut, EnsureBigEndian or AutoDetectEndian is set. |
| `Bc.RelocateFrom` | source/bc.cpp:19-21 | The pointer loop fails only when an entry or its target lies outside the buffer. |
| `Bc.Processed` | source/bc.cpp:7-22 | A BC header pass that fails other than out of bounds leaves the buffer unchanged. |
| `Bc.ProcessedRejects` | source/bc.cpp:8-14 | A wrong id fails with that id, and the flag guards then fail in the source's order. Each rejection changes nothing. |
| `Bc.SlotIs` | source/bc.cpp:20 | Entry `i` of the fixup table sits at `table + 8 * i`. |
| `Bc.AddAllOnce` | source/bc.cpp:19-21 | Over distinct target words inside the buffer, each target ends up holding its old value plus the base, and every other byte is unchanged. |
| `Bc.RelocateIsAddAll` | source/bc.cpp:19-21 | When the targets lie in the buffer and none overlaps the fixup table, the loop adds the base to each target named by the table. |
| `Bc.RelocateStep` | source/bc.cpp:20 | One iteration adds the base to the target word of entry `p`, and the loop continues from `p + 1`. |
| `Bc.ProcessHeader` | source/bc.cpp:7-22 | The new buffer and the outcome equal `Processed`: the checks, the base added to `data` and `fixups`, then the pointer loop. |
| `Bc.AddHeaderBases` | source/bc.cpp:16-17 | The two header words `data` and `fixups` are rebased in place. |
| `Bc.Relocate` | source/bc.cpp:19-21 | The pointer loop equals `RelocateFrom` over all `numPointers` entries. |
| `Bc.RelocateEntry` | source/bc.cpp:20 | One entry either continues the loop as `RelocateFrom` says, or fails with its result. |
| `Bc.ProcessedAddsBaseOnce` | source/bc.cpp:7-22 | On a well-formed blob (targets inside, distinct, clear of the table and the header words), the pass succeeds. It adds the base exactly once to `data`, to `fixups` and to each target word, and changes nothing else. |
| `Bc.ProcessedIsAddAll` | source/bc.cpp:7-22 | On a well-formed blob the pass is the header rebase followed by the rebase of every target. |
| `Bc.AllAddedOnce` | source/bc.cpp:16-21 | Rebasing the header, then distinct targets clear of it, adds the base once to each and keeps every other byte. |
| `Bc.FirstLater` | source/bc.cpp:55-61 | Finds the first frame later than the sample time: every frame before it is no later, and it is later. |
| `Bc.SelectedMeaning` | source/bc.cpp:52-65 | The chosen key frame is the last frame at or before the sample time, or the last frame when none is later. A later first frame is the `&f > frames.begin()` assertion failure, and an empty track is out of bounds. On sorted frames, every later frame is after the time. |
| `Bc.SelectFrame` | source/bc.cpp:52-65 | The frame loop returns `Selected`. |
| `Bc.AddBase` | source/bc.cpp:16-17 | adding the base to a 64-bit word keeps the buffer length |
| `Bc.HeaderAdded` | source/bc.cpp:16-17 | the two header pointers' writes keep the buffer length |
| `Bc.TargetsFrom` | source/bc.cpp:19-21 | the rest of the table names one word per entry |
| `Bc.AddAll` | source/bc.cpp:19-21 | adding the base to each named word keeps the buffer length |
| `Bc.Targets` | source/bc.cpp:19-21 | the table names one word per entry |
| `Bc.RelocateFirst` | source/bc.cpp:19-21 | when the named words lie in the buffer and outside the table, relocating from entry `p` adds the base to each of them |
| `Bc.HeaderWordsAdded` | source/bc.cpp:16-21 | the two header pointers get the base added exactly once, and the table's relocation, which names other words, leaves them |
| `Drsm.TexturesPass` | source/drsm.cpp:32-50 | If the texture-table pass succeeds, the table lies in the buffer. |
| `Drsm.TexturesPassMeaning` | source/drsm.cpp:32-50 | The texture table passes exactly when ProcessDataOut and AutoDetectEndian are clear and its texture array is empty or lies in the buffer. Bytes change only when the data is big-endian. On success every texture's name is fixed up against the table. |
| `Drsm.IndexChecksExactly` | source/drsm.cpp:69-79 | The stream-index assertions hold exactly when modelStreamEntryIndex is 0 and shaderStreamEntryIndex is 1, and, with a texture table, the low and middle texture indices have the values asserted. A failure is an assertion error. |
| `Drsm.ResourcesPointersFit` | source/drsm.cpp:67-68 | The five pointers fixed up in the resources record lie inside it and are distinct. The fifth is `textures`. |
| `Drsm.ResourcesPass` | source/drsm.cpp:52-80 | If the resources pass succeeds, the record lies in the buffer. |
| `Drsm.ResourcesPassKeepsBytes` | source/drsm.cpp:52-80 | A little-endian resources pass changes no byte, only references. |
| `Drsm.ResourcesPassValid` | source/drsm.cpp:52-80 | If the resources pass succeeds, the flags were accepted, the id is 0x1001 and the stream-index assertions hold. |
| `Drsm.ResourcesWithoutTextures` | source/drsm.cpp:67-79 | Without a texture table, the resources pass is the pointer fixups followed by the model and shader index checks. |
| `Drsm.HeaderCheckExactly` | source/drsm.cpp:83-97 | The header checks pass exactly when the flags are accepted, the id is DRSM and the version is 0x2711. A wrong id or a wrong version is reported with the value read. |
| `Drsm.Passed` | source/drsm.cpp:87-89 | Without AutoDetectEndian, the flags passed on are the caller's flags. |
| `Drsm.ResourcesStep` | source/drsm.cpp:105-107 | If the resources step succeeds, the resources record lies in the buffer. |
| `Drsm.HeaderPassKeepsBytes` | source/drsm.cpp:82-112 | The whole DRSM header pass changes no byte, only references. |
| `Drsm.HeaderPassRejects` | source/drsm.cpp:83-105 | A header the checks reject is left as it is. A null resources pointer fails after the two fixups. |
| `Drsm.HeaderPassSteps` | source/drsm.cpp:99-111 | If the header pass succeeds, the checks passed, the resources pass succeeded, and the result is the stream loop over that pass's state. |
| `Drsm.ResourcesStepValid` | source/drsm.cpp:105-107 | If the resources step succeeds, the record lies in the buffer, has id 0x1001, satisfies the index assertions, and no byte changed. |
| `Drsm.HeaderPassValid` | source/drsm.cpp:82-112 | If the header pass succeeds, the header checks passed and the resources record it refers to is a valid one. |
| `Drsm.HeaderPassFixesStreams` | source/drsm.cpp:109-111 | If the header pass succeeds, the data pointer of every stream is fixed up against the header, not against the resources record. |
| `Drsm.StreamsFixed` | source/drsm.cpp:109-111 | When the stream loop succeeds, every stream's data pointer is fixed up against the header. |
| `Drsm.ProcessTextures` | source/drsm.cpp:32-50 | The new bytes and references equal `TexturesPass`. |
| `Drsm.ProcessResources` | source/drsm.cpp:52-80 | The new bytes and references equal `ResourcesPass`. |
| `Drsm.ProcessResourcesBody` | source/drsm.cpp:69-79 | After the fixups: the texture table pass when there is one, followed by the index assertions. |
| `Drsm.ProcessHeader` | source/drsm.cpp:82-112 | The new bytes and references equal `HeaderPass`. |
| `Drsm.ProcessHeaderBody` | source/drsm.cpp:99-111 | After the checks, the rest of the header pass equals `HeaderPass`. |
| `Drsm.ProcessStreams` | source/drsm.cpp:107-111 | The resources pass followed by the stream loop equals `StreamsWalk` over the resources pass's state. |
| `Drsm.TexturesHead` | source/drsm.cpp:32-38 | the texture table's own swap keeps the buffer length |
| `Drsm.HeaderCheck` | source/drsm.cpp:83-97 | when the checks pass the header lies in the buffer |
| `Drsm.HeaderPass` | source/drsm.cpp:82-112 | the header pass keeps the buffer length |
| `Drsm.StreamsWalk` | source/drsm.cpp:107-111 | the walk over the streams keeps the buffer length |
| `Passes.Visited` | source/mxmd.cpp:650-656 | `if (!excluded && item.p) ProcessClass(*item.p) else item.p.Reset()` as a step on the buffer; no pass changes the buffer length |
| `Passes.VisitedMeaning` | source/mxmd.cpp:650-656 | an excluded or null pointer is reset to null without running any pass (two passes give the same result); an included pointer holding an address is exactly the pass on that address |
| `Passes.Present` | source/mxmd.cpp:610-616 | `if (item.p) ProcessClass(*item.p)`; the buffer length is kept |
| `Passes.Deref` | source/mxmd.cpp:651-652 | `ProcessClass(*item.p)` without a null check; the buffer length is kept |
| `Passes.PresentOrDeref` | source/mxmd.cpp:735-738 | a null pointer is left alone by the checked visit and fails with NullReference on the unchecked one; a non-null pointer is treated the same by both, and an address is handed to the pass |
| `Passes.Each` | source/mxmd.cpp:288-294 | `for (auto &m : array) ProcessClass(m)` over `n` records in order, stopping at the first failure; the buffer length is kept |
| `Passes.ForEach` | source/mxmd.cpp:425-431 | the same loop over the array an items pointer refers to: an empty array is not followed, a non-empty one behind null is dereferenced; the buffer length is kept |
| `Passes.EachLast` | source/mxmd.cpp:288-290 | the loop over `n+1` records is the loop over `n` followed by the pass of the record `size` bytes after the `n`th, unless the loop already failed |
| `Passes.EachNoOp` | source/mxmd.cpp:288-290 | a loop whose record pass always passes without change leaves the buffer unchanged |
| `Passes.Run` | source/mxmd.cpp:651 | running a pass on the buffer object leaves it holding exactly the bytes and references the pass computes |
| `Passes.Visit` | source/mxmd.cpp:664-668 | the visit on the buffer object ends in the state `Visited` gives |
| `Passes.VisitPresent` | source/mxmd.cpp:736-738 | the checked visit on the buffer object ends in the state `Present` gives |
| `Passes.VisitDeref` | source/mxmd.cpp:693-694 | the unchecked visit on the buffer object ends in the state `Deref` gives |
| `Passes.RunEach` | source/mxmd.cpp:292-294 | the loop on the buffer object, with its cursor moved by the record size, ends in the state `Each` gives |
| `Passes.RunForEach` | source/mxmd.cpp:319-321 | the array loop on the buffer object ends in the state `ForEach` gives |
| `Records.SwapSpan` | source/mxmd.cpp:153 | swapping every 32-bit word of a span keeps the buffer length |
| `Records.Swapped` | source/mxmd.cpp:272-275 | swapping the words of one record (when the flags call for it) keeps the buffer length |
| `Records.WalkedBytes` | source/mxmd.cpp:272-275 | swapping the words of `n` consecutive records keeps the buffer length |
| `Records.Walked` | source/mxmd.cpp:272-275 | `for (auto &b : array) { FByteswapper(b); b.Fixup(base); }` keeps the buffer length, and a failed walk changes nothing |
| `Records.WalkedMeaning` | source/drsm.cpp:44-49 | the walk passes exactly when the array is empty or lies inside the buffer, failing with the error of following its pointer; without swapping the bytes are untouched; after a pass every record's pointer field holds the fixup of the offset it stores, and no pointer outside the array changes |
| `Records.WalkedPointers` | source/mxmd.cpp:272-275 | over an array of bare offsets, a passing walk swaps exactly the `4n` bytes of the array, each word then holds the fixup of its offset, and no pointer outside the array changes |
| `Records.Walk` | source/drsm.cpp:44-49 | the walk on the buffer object ends in the state `Walked` gives |
| `Records.WalkAt` | source/drsm.cpp:44-49 | the loop over records inside the buffer ends with the swapped bytes of `WalkedBytes` and every record's pointer field fixed against the new bytes |
| `Records.WalkOne` | source/mxmd.cpp:273-274 | one iteration swaps the record's words and stores the fixup of the pointer field, and changes no other reference |
| `Records.Swept` | source/mxmd.cpp:238-240 | `for (auto &p : array) FByteswapper(p)` over fields of one width keeps the buffer length and every reference |
| `Records.SweptMeaning` | source/mxmd.cpp:238-240 | the element swaps pass exactly when the array is empty or inside the buffer, fail with the error of following its pointer and then change nothing, and otherwise change no byte outside the array |
| `Records.Sweep` | source/mxmd.cpp:284-286 | the element swaps on the buffer object end in the state `Swept` gives |
| `Records.ArraySwept` | source/msmd.cpp:168-170 | the element swaps of one array field of a record keep the buffer length and every reference |
| `Records.SweptArrays` | source/msmd.cpp:168-199 | the element loops over several array fields, one after the other, keep the buffer length and every reference |
| `Records.SweptArraysEmpty` | source/msmd.cpp:168-199 | when every array is empty the loops change nothing |
| `Records.SweptArraysFails` | source/msmd.cpp:168-199 | the loops fail only with NullReference, WildReference or OutOfBounds |
| `Records.ArraySweep` | source/msmd.cpp:171-173 | one array loop on the buffer object ends in the state `ArraySwept` gives |
| `Records.SweepArrays` | source/msmd.cpp:168-199 | the array loops on the buffer object end in the state `SweptArrays` gives |
| `Lbim.Field` | include/xenolib/lbim.hpp:47-58 | each stored header field is a `uint32` |
| `Lbim.Mount` | include/xenolib/lbim.hpp:60-62 | a file mounts exactly when it is at least 40 bytes long, and the mounted header's fields are all 32-bit |
| `Lbim.Fields` | include/xenolib/lbim.hpp:47-58 | a header has ten stored fields |
| `Lbim.Encode` | include/xenolib/lbim.hpp:47-58 | an encoded header is 40 bytes |
| `Lbim.FieldOf` | include/xenolib/lbim.hpp:47-58 | field `i` of a file ending in an encoded header is field `i` of that header |
| `Lbim.MountEncode` | include/xenolib/lbim.hpp:60-62 | mounting any file that ends in an encoded header gives that header back |
| `Lbim.FormatInfo` | source/lbim.cpp:30-60 | the switch accepts exactly the twelve listed formats, with 4-pixel blocks of 8 or 16 bytes for the BC formats and single pixels otherwise; any other format throws UnhandledFormat |
| `Lbim.BppPow2` | source/lbim.cpp:112 | every accepted block size is the power of two that `bppShift` names |
| `Lbim.NumLeadingZeroes` | source/lbim.cpp:62-67 | the loop returns the number of zero bits below the lowest set bit of a nonzero `uint32` |
| `Lbim.FindLastBitIndex` | source/lbim.cpp:85-94 | the loop returns the bit length of the value |
| `Lbim.AndPow2` | source/lbim.cpp:118 | `x & (1 << i)` is nonzero exactly when bit `i` of `x` is set |
| `Lbim.XBitsShift` | source/lbim.cpp:115-121 | the loop yields 3 plus the number of set bits 3..6 of the mask |
| `Lbim.RoundedUpMeaning` | source/lbim.cpp:96-105 | for `v >= 1` the rounded value is a power of two with `v <= r < 2v`, and at most 2^32 for a `uint32` |
| `Lbim.RoundUpPowTwo` | source/lbim.cpp:96-105 | the 64-bit decrement, smear and increment give, for every `v` up to 2^32, the smallest power of two not below `v` (and 0 for 0) |
| `Lbim.GridOf` | source/lbim.cpp:107-108 | the block grid is no larger than the pixel size and has the format's block size |
| `Lbim.AlignedCovers` | source/lbim.cpp:109-110 | when the aligned size fits 32 bits, the aligned surface holds the surface and is less than twice its size |
| `Lbim.HeightMaskOnes` | source/lbim.cpp:116 | `hBitMask` is the ones below the bit length of the rounded block height |
| `Lbim.XBitsMeaning` | source/lbim.cpp:115-121 | `xBitsShift` is the bit count of the row index clamped to 3..7 |
| `Lbim.ShiftsMeaning` | source/lbim.cpp:112-113 | `bppShift` is log2 of the block size, and for a nonzero 32-bit row size `lineShift` is its floor log2 |
| `Lbim.LineShift` | source/lbim.cpp:113 | `FindLastBitIndex(row) - 1` on `uint32` brackets a nonzero row size between consecutive powers of two |
| `Lbim.ComputeLayout` | source/lbim.cpp:107-121 | the method computing sizes and shifts with the helpers' loops returns the layout `LayoutOf` defines |
| `Lbim.Shl` | source/lbim.cpp:147-153 | a left shift on a `uint32` stays below 2^32 |
| `Lbim.NumSlices` | source/lbim.cpp:123-124 | a texture has at least one slice, and at least `depth` slices unless it is a cubemap |
| `Lbim.SlicePlans` | source/lbim.cpp:126-128 | there is one copy plan per slice |
| `Lbim.TexturePlans` | source/lbim.cpp:123-128 | there is one copy plan per slice of the texture |
| `Lbim.TexturePlan` | source/lbim.cpp:126-128 | slice `s` of the texture uses the computed layout at slice `s` |
| `Lbim.SliceTarget` | source/lbim.cpp:162 | block (`w`, `y`) of slice `s` is written at `surfaceSize*s + (y*bWidth + w)*bpp` |
| `Lbim.SliceSource` | source/lbim.cpp:128-162 | block (`w`, `y`) of slice `s` is read at `alignedSurfaceSize*s` plus its swizzled address, and copied exactly when the address plus `bpp` stays within the aligned surface |
| `Lbim.FitSurface` | source/lbim.cpp:109 | when the surface fits 32 bits, `surfaceSize` is the unwrapped size of the grid |
| `Lbim.SlicesStacked` | source/lbim.cpp:127 | slices whose `surfaceSize` is unwrapped lie one after the other in the output |
| `Lbim.Decode` | source/lbim.cpp:24-60 | a nonzero mip index fails its assertion, an unknown format throws UnhandledFormat, and a successful decode keeps the output length |
| `Lbim.DecodeMeaning` | source/lbim.cpp:126-163 | for a known format whose sizes fit, the decode succeeds exactly when every copied block of every slice lies inside both buffers, and then every slice's copied blocks hold their source bytes, its skipped blocks are unchanged, and nothing past the slices changes |
| `Lbim.DecodeSlices` | source/lbim.cpp:126-164 | the slice loop on the output array ends in the state of the slice-by-slice decode, or with its error |
| `Lbim.DecodeMipmap` | source/lbim.cpp:24-165 | the method on the output array ends in the state `Decode` gives, or with its error |
| `Mtxt.Fields` | include/xenolib/mtxt.hpp:27-44 | a header has its 15 named fields and its reserved words |
| `Mtxt.FromFields` | include/xenolib/mtxt.hpp:27-44 | a header built from 28 words has 13 reserved words |
| `Mtxt.FieldsRoundTrip` | include/xenolib/mtxt.hpp:27-44 | splitting a header into fields and rebuilding it gives the header back |
| `Mtxt.FromFieldsRoundTrip` | include/xenolib/mtxt.hpp:27-44 | rebuilding a header from 28 words and splitting it gives the words back |
| `Mtxt.TrailerWord` | include/xenolib/mtxt.hpp:46-48 | each trailer word is four bytes |
| `Mtxt.Words` | include/xenolib/mtxt.hpp:46-48 | the trailer holds 28 words, each a `uint32` |
| `Mtxt.Mount` | include/xenolib/mtxt.hpp:46-48 | a file mounts exactly when it is at least 112 bytes long, and the mounted header is well formed |
| `Mtxt.Encode` | include/xenolib/mtxt.hpp:27-44 | an encoded header is 112 bytes |
| `Mtxt.MountEncode` | include/xenolib/mtxt.hpp:46-48 | mounting any file that ends in an encoded header gives that header back |
| `Mtxt.WordOf` | include/xenolib/mtxt.hpp:46-48 | word `i` of a file ending in an encoded header is field `i` of that header |
| `Mtxt.MountFields` | include/xenolib/mtxt.hpp:46-48 | the fields of a mounted header are the trailer's words |
| `Mtxt.Swap32` | source/mtxt.cpp:24-26 | a byte-reversed word is still a `uint32` |
| `Mtxt.Swap32Read` | source/mtxt.cpp:24-26 | swapping a word read little-endian gives the big-endian reading of the same bytes |
| `Mtxt.Swap32Involutive` | source/mtxt.cpp:24-26 | swapping a `uint32` twice restores it |
| `Mtxt.SwapHeader` | source/mtxt.cpp:24-26 | the swapped header is well formed |
| `Mtxt.SwapHeaderFields` | source/mtxt.cpp:24-26 | every field of the swapped header, reserved ones included, is the swapped field |
| `Mtxt.SwapHeaderInvolutive` | source/mtxt.cpp:24-26 | swapping a header twice restores it |
| `Mtxt.SwapMounted` | source/mtxt.cpp:24-26 | the swapped mounted header of a file is its trailer read as big-endian words |
| `Mtxt.FormatInfo` | source/mtxt.cpp:36-62 | the switch accepts exactly the twelve listed formats: BC1/BC4 as 4-pixel blocks of 8 bytes, BC2/BC3/BC5 of 16 bytes, R8 as 1 byte, RGBA8 as 4 bytes; any other format throws UnhandledFormat |
| `Mtxt.FormatSizes` | source/mtxt.cpp:36-62 | every accepted format has a block size in {1,4,8,16} and a block side in {1,4}, the side being 4 exactly for the BC formats |
| `Mtxt.GridOf` | source/mtxt.cpp:64-65 | the grid has the format's block size |
| `Mtxt.AndOne` | source/mtxt.cpp:69 | masking with 1 keeps the lowest bit |
| `Mtxt.AndThree` | source/mtxt.cpp:70 | masking with 3 keeps the two lowest bits |
| `Mtxt.SwizzleBits` | source/mtxt.cpp:69-70 | the pipe swizzle is bit 8 and the bank swizzle bits 9-10 of `swizzle`; together they are bits 8-10 |
| `Mtxt.TiledAddress` | source/mtxt.cpp:79-89 | the tiled address is a `uint32` |
| `Mtxt.TiledPlan` | source/mtxt.cpp:77-92 | the tiled copy covers the grid and writes from the start of both buffers |
| `Mtxt.Linear` | source/mtxt.cpp:95 | the `memcpy` succeeds exactly when both buffers hold `size` bytes, and then the output's first `size` bytes are the input's and the rest unchanged |
| `Mtxt.Decode` | source/mtxt.cpp:29-62 | a nonzero mip index fails its assertion, an unknown format throws UnhandledFormat, and a successful decode keeps the output length |
| `Mtxt.LinearMeaning` | source/mtxt.cpp:68-96 | a surface tiled at most `LinearAligned` decodes exactly when both buffers hold `surfaceSize` bytes, and then its first `surfaceSize` bytes are the input's and the rest is unchanged |
| `Mtxt.TiledDecode` | source/mtxt.cpp:68-93 | a tiled surface is decoded by the block copy of `TiledPlan` |
| `Mtxt.TiledMeaning` | source/mtxt.cpp:77-92 | a tiled surface decodes exactly when every block is read and written inside the buffers, and then block (`w`, `y`) holds at `(y*width + w)*bpp` the `bpp` input bytes at its tiled address |
| `Mtxt.TilingDispatch` | source/mtxt.cpp:72-93 | from `Tiled2DThin1` on the address is the macro-tiling function with the pipe and bank swizzles, below it the micro-tiling one, each stored in a `uint32` |
| `Mtxt.CopyLinear` | source/mtxt.cpp:95 | the copy on the output array ends in the state `Linear` gives, or with its error |
| `Mtxt.DecodeMipmap` | source/mtxt.cpp:29-97 | the method on the output array ends in the state `Decode` gives, or with its error |
| `Blocks.Block` | source/lbim.cpp:159-162 | one block copy keeps the output length |
| `Blocks.Cells` | source/lbim.cpp:131-163 | the inner loop over one column keeps the output length |
| `Blocks.Columns` | source/lbim.cpp:130-163 | the outer loop keeps the output length |
| `Blocks.TargetInside` | source/mtxt.cpp:80 | a block's place `(h*width + w)*bpp` lies inside the surface |
| `Blocks.TargetsApart` | source/mtxt.cpp:80 | the places of two different blocks do not overlap |
| `Blocks.BlockFails` | source/lbim.cpp:159-162 | a block copy fails only for a copied block outside the buffers |
| `Blocks.CellsMeaning` | source/lbim.cpp:131-163 | after one column the output is the partial decode up to that block, or some copied block of the column lies outside the buffers |
| `Blocks.ColumnsMeaning` | source/lbim.cpp:130-163 | after whole columns the output is the partial decode, or some copied block lies outside the buffers |
| `Blocks.ColumnMeaning` | source/lbim.cpp:130-163 | one more column extends the partial decode, or names the block of that column that failed |
| `Blocks.DecodedMeaning` | source/mtxt.cpp:77-92 | the block copy fails exactly when a copied block lies outside the buffers; on success each copied block holds its source bytes, each skipped block is unchanged, and no byte outside the surface changes |
| `Blocks.CopyBlock` | source/lbim.cpp:159-162 | the copy on the output array ends in the state `Block` gives, or with its error |
| `Blocks.CopyBlocks` | source/mtxt.cpp:77-82 | the nested loops on the output array end in the state `Decoded` gives, and fail only with OutOfBounds |
| `Blocks.CellsStayFailed` | source/lbim.cpp:131-163 | once a block of a column fails, the column fails with it |
| `Blocks.ColumnsStayFailed` | source/lbim.cpp:130-163 | once a column fails, the surface fails with it |
| `Blocks.Sequence` | source/lbim.cpp:126-164 | the slices decoded one after the other keep the output length |
| `Blocks.StackedInside` | source/lbim.cpp:127 | a block of slice `s` is written inside slice `s`, before any later slice |
| `Blocks.SequenceKeeps` | source/lbim.cpp:126-164 | decoding slice `n` leaves the blocks of earlier slices untouched |
| `Blocks.SequenceFresh` | source/lbim.cpp:126-164 | before slice `n` is decoded its blocks still hold the original output |
| `Blocks.SequenceStep` | source/lbim.cpp:126-164 | decoding slice `n` after the first `n` slices gives the first `n + 1` |
| `Blocks.SequenceMeaning` | source/lbim.cpp:126-164 | the first `n` slices fail exactly when a copied block of one of them lies outside the buffers, and otherwise the output is every slice decoded |
| `Blocks.SequenceStaysFailed` | source/lbim.cpp:126-164 | once a slice fails, the whole sequence fails with its error |
| `ModelViews.FormatOf` | source/mxmd.cpp:27-55 | the format conversion succeeds exactly for the handled vertex kinds and throws "Unhandled vertex type" otherwise |
| `ModelViews.UsageOf` | source/mxmd.cpp:58-85 | the usage conversion succeeds exactly for the handled vertex kinds and throws "Unhandled vertex type" otherwise |
| `ModelViews.ConversionsAgree` | source/mxmd.cpp:27-85 | the two conversions accept the same kinds, and positions are float R32G32B32, texture coordinates float R32G32, bone indices unsigned bytes and vertex indices unsigned integers |
| `ModelViews.IndexMeaning` | source/mxmd.cpp:127-142 | the MDO builder numbers a set from 0; on handled kinds the MXMD builder picks the same index except that the morph vertex index gets 1 |
| `ModelViews.Describe` | source/mxmd.cpp:124-144 | one descriptor is built exactly when its entry's kind is handled, and fails with "Unhandled vertex type" otherwise |
| `ModelViews.DescribeAll` | source/mxmd.cpp:123-146 | one result per descriptor entry |
| `ModelViews.SizesNext` | source/mxmd.cpp:125-126 | the running offset grows by each entry's size |
| `ModelViews.MorphSeenMeaning` | source/mxmd.cpp:136-138 | the unpack setting is carried forward exactly once some earlier entry is a morph normal |
| `ModelViews.DescriptorsExist` | source/mxmd.cpp:116-146 | the descriptors are built exactly when every entry is of a handled kind, failing with "Unhandled vertex type" otherwise, and then there is one per entry |
| `ModelViews.DescriptorsLayout` | source/mxmd.cpp:124-126 | descriptor offsets are the prefix sums of the entry sizes: the first is 0 and each starts where the previous entry ends |
| `ModelViews.DescriptorsFields` | source/mxmd.cpp:116-146 | every descriptor shares the buffer's data and stride, carries its entry's usage, format and set index, and unpacks exactly in the MXMD builder from the first morph normal on |
| `ModelViews.BuildDescriptors` | source/mxmd.cpp:116-146 | the loop with its running offset and reused descriptor returns `Described` |
| `ModelViews.VertexArray.constructor` | include/xenolib/internal/model.hpp:51-55 | a vertex array holds the descriptors and vertex count it is given |
| `ModelViews.VertexArray.AppendMorphBuffer` | include/xenolib/internal/model.hpp:88-103 | two morph descriptors are appended and the vertex count is unchanged |
| `ModelViews.NewVertexArray` | include/xenolib/internal/model.hpp:57-86 | the MDO vertex array exists exactly when its descriptors can be built, holds them and `data.numItems` vertices, and otherwise fails with the descriptors' error |
| `ModelViews.MorphViewsLayout` | include/xenolib/internal/model.hpp:88-103 | the two appended views do not overlap, the normal starts right after the position, and both read the morph buffer at its offset with its stride |
| `ModelViews.MorphTargetLayout` | include/xenolib/internal/model.hpp:355-376 | the three views of a morph target do not overlap and end by byte 32, share the buffer, and only the normal is unpacked by adding -0.5 |
| `ModelViews.LinkAll` | include/xenolib/internal/model.hpp:161-172 | one link per bone record |
| `ModelViews.LinkedMeaning` | include/xenolib/internal/model.hpp:158-173 | the skeleton is built exactly when every `parentID` is below the bone count (else OutOfBounds); bone `i` has index `i` and its parent is bone `parentID` exactly when `parentID` is not negative |
| `ModelViews.BuildSkeleton` | include/xenolib/internal/model.hpp:158-173 | the loop returns `Linked` |
| `ModelViews.BuildFlatSkeleton` | include/xenolib/internal/model.hpp:293-302 | a version 3 skeleton has `count1` bones, bone `i` with index `i` and no parent |
| `ModelViews.FlatIsUnlinked` | include/xenolib/internal/model.hpp:293-302 | a version 3 skeleton is the version 1 skeleton of bones that all store a negative `parentID` |
| `ModelViews.SkinView.NodeIndex` | include/xenolib/internal/model.hpp:213-215 | a version 1 node index is the listed bone index, OutOfBounds past the list; a version 3 node is its own index |
| `ModelViews.PrimitiveView.NumVertices` | source/mxmd.cpp:874-876 | the vertex count is the floor of the data size over the stride, and a zero stride is a division by zero |
| `ModelViews.PrimitiveMeaning` | source/mxmd.cpp:937-942 | a primitive has a view exactly when its vertex buffer lies inside the stream and holds only handled kinds (OutOfBounds past the buffers); the view carries that buffer's descriptors and the index buffer at `meshFacesID` |
| `ModelViews.ViewAll` | source/mxmd.cpp:935-944 | one view per primitive |
| `ModelViews.ModelViewsMeaning` | source/mxmd.cpp:935-944 | the adapter makes one view per primitive of every mesh, in mesh order, exactly when every primitive has one, and otherwise fails with the first failing primitive's error |
| `ModelViews.MeshViewsAt` | source/mxmd.cpp:935-944 | the views of mesh `m` follow those of the meshes before it |
| `ModelViews.MeshViewAt` | source/mxmd.cpp:936-943 | the view after all primitives of the meshes before `m`, plus `i`, is the view of primitive `i` of mesh `m` |
| `ModelViews.BuildModelViews` | source/mxmd.cpp:935-944 | the nested loops return `ModelViewsOf` |
| `ModelViews.BuildView` | source/mxmd.cpp:937-942 | the loop body returns the view `PrimitiveOf` defines |
| `ModelViews.SamplerOf` | include/xenolib/internal/model.hpp:397-399 | a sampler is bound and its offset is the `uint32` difference: adding the buffer start back gives `vertexIndexSubstract` modulo 2^32, and it is the plain difference when no wrap occurs |
| `ModelViews.LastAt` | include/xenolib/internal/model.hpp:456-459 | the last palette placed at a slot among the first `n`, or none |
| `ModelViews.PlacedMeaning` | include/xenolib/internal/model.hpp:453-460 | the table is built exactly when every palette names a row below `numLODs` and a slot below 16 (else `out_of_range`); it then has `numLODs` rows of 16 slots, each holding the sampler of the last palette placed there or unbound |
| `ModelViews.PlacedStaysFailed` | include/xenolib/internal/model.hpp:456-459 | once a placement is out of range the construction fails with that error |
| `ModelViews.PaletteIndexMeaning` | include/xenolib/internal/model.hpp:464-470 | the palette slot is the lowest set bit of the skin flags |
| `ModelViews.LodRow` | include/xenolib/internal/model.hpp:472 | the table row is `LOD - 1`, and 0 for LOD 0 |
| `ModelViews.FirstBound` | include/xenolib/internal/model.hpp:477-482 | the first bound slot of a row at or after `i`, or none |
| `ModelViews.SelectedMeaning` | include/xenolib/internal/model.hpp:462-488 | `Get` fails with `out_of_range` exactly outside the table, fails its assertion exactly when the row has no bound slot, and otherwise yields the picked slot if bound, else the first bound slot of the row |
| `ModelViews.WeightSamplers.constructor` | include/xenolib/internal/model.hpp:454 | a new table has `numLODs` rows of unbound slots |
| `ModelViews.WeightSamplers.Place` | include/xenolib/internal/model.hpp:457-458 | placing a palette stores its sampler when in range, and otherwise fails with `out_of_range` and leaves the table |
| `ModelViews.WeightSamplers.Get` | include/xenolib/internal/model.hpp:462-488 | the selection returns `Selected` for the table |
| `ModelViews.NewWeightSamplers` | include/xenolib/internal/model.hpp:453-460 | the table exists exactly when every palette can be placed, and then holds `Placed`; otherwise it fails with that error |
| `Msim.HeaderPointersFit` | source/msim.cpp:55-57 | the header's seven pointer fields lie inside it at distinct offsets |
| `Msim.InstancesPointersFit` | source/msim.cpp:35 | the instances record's three pointer fields lie inside it at distinct offsets |
| `Msim.Exchanged` | source/msim.cpp:24 | exchanging two 16-bit fields keeps the buffer length |
| `Msim.ExchangedMeaning` | source/msim.cpp:24 | `std::swap(unk00, unk01)` moves each half to the other's place and touches nothing else |
| `Msim.ExchangedSpan` | source/msim.cpp:22-25 | the word swap followed by the exchange keeps the buffer length |
| `Msim.ExchangedSpanMeaning` | source/msim.cpp:22-25 | after the word swap and the exchange both 16-bit leading fields and every later word read as the big-endian values they held, and nothing outside the record changes |
| `Msim.HeaderBytes` | source/msim.cpp:22-25 | the header's swap keeps the buffer length |
| `Msim.HeaderBytesMeaning` | source/msim.cpp:22-25 | after the header's swap `unk00`, `unk01` and every later word of the header read big-endian, and nothing outside the header changes |
| `Msim.InstancesHead` | source/msim.cpp:18-20 | the instances record's word swap keeps the buffer length |
| `Msim.InstancesPass` | source/msim.cpp:27-46 | the instances pass keeps the buffer length |
| `Msim.InstanceArrays` | source/msim.cpp:37-45 | the three element loops keep the buffer length and every reference |
| `Msim.InstancesPassRejects` | source/msim.cpp:30-32 | the instances pass refuses AutoDetectEndian, then little-endian data, then ProcessDataOut, in that order and before touching anything |
| `Msim.InstancesPassFixes` | source/msim.cpp:30-35 | a passing instances pass had big-endian flags without auto-detection or data-out, its record lies in the buffer, and each of its three pointers holds the fixup of its swapped offset against the record |
| `Msim.InstancesPassEmpty` | source/msim.cpp:33-45 | with all three arrays empty the instances pass only swaps the record's words and fixes its pointers |
| `Msim.HeaderRefsMeaning` | source/msim.cpp:53-57 | the header's seven pointers are fixed up against the header from the offsets its swapped bytes hold, and no other reference changes |
| `Msim.HeaderPass` | source/msim.cpp:48-91 | the header pass keeps the buffer length |
| `Msim.HeaderStart` | source/msim.cpp:50-58 | the header's own part keeps the buffer length, and when it passes the guards were met and the header lies in the buffer |
| `Msim.HeaderRest` | source/msim.cpp:59-90 | the rest of the header pass keeps the buffer length |
| `Msim.Included` | source/msim.cpp:62-78 | the three optional records keep the buffer length |
| `Msim.ElementSwaps` | source/msim.cpp:80-90 | the three element loops keep the buffer length and every reference |
| `Msim.HeaderPassRejects` | source/msim.cpp:50-52 | the header pass refuses AutoDetectEndian, then little-endian data, then ProcessDataOut, in that order and before touching anything |
| `Msim.HeaderPassInstancesFirst` | source/msim.cpp:58 | the instances record is processed before anything else the header points to, with flags rebased on the header; a null `instances` pointer fails with NullReference |
| `Msim.ModelsExcluded` | source/msim.cpp:62-66 | with the Model exclusion the models pass never runs: the header pass is the same whatever it is |
| `Msim.ShadersExcluded` | source/msim.cpp:68-72 | with the Shaders exclusion the shaders pass never runs |
| `Msim.MaterialsExcluded` | source/msim.cpp:74-78 | with the Materials exclusion the materials pass never runs |
| `Msim.LoadFlags` | source/msim.cpp:148-149 | the load flags carry the exclusions as user data |
| `Msim.LoadFlagsAccepted` | source/msim.cpp:148-152 | `LoadV1`'s flags get past the guards of the header and the instances record, so the header pass starts exactly when the file holds a whole header, and fails with OutOfBounds otherwise |
| `Msim.SwapExchanged` | source/msim.cpp:22-25 | the swap on the buffer object leaves exactly `ExchangedSpan` of the old bytes |
| `Msim.ProcessInstances` | source/msim.cpp:27-46 | the method on the buffer object ends in the state `InstancesPass` gives |
| `Msim.SweepInstanceArrays` | source/msim.cpp:37-45 | the method on the buffer object ends in the state `InstanceArrays` gives |
| `Msim.ProcessHeader` | source/msim.cpp:48-91 | the method on the buffer object ends in the state `HeaderPass` gives |
| `Msim.ProcessIncluded` | source/msim.cpp:59-90 | the method on the buffer object ends in the state `HeaderRest` gives |
| `Msim.SweepElements` | source/msim.cpp:80-90 | the method on the buffer object ends in the state `ElementSwaps` gives |
| `MsimLoad.Normalized` | source/msim.cpp:178-180 | the normalized model index is below 2^31 |
| `MsimLoad.SignBitCleared` | source/msim.cpp:178-180 | a word with its top bit set reads as a negative `int32`, and `mdlIndex ^= 0x80000000` gives the word with that bit cleared |
| `MsimLoad.AddedMeshesMeaning` | source/msim.cpp:154-167 | the mesh models are added exactly when `bufferIndices` has an entry for every remaining mesh (else OutOfBounds); earlier models stay, and mesh `t`'s model lists its primitives at LOD 0 with stream index `bufferIndices[t]` and no skins |
| `MsimLoad.SkinOne` | source/msim.cpp:176-190 | adding one matrix to a model's skin keeps the number of models |
| `MsimLoad.SkinFrom` | source/msim.cpp:174-191 | one cluster's range keeps the number of models |
| `MsimLoad.SkinMatrix` | source/msim.cpp:171-191 | one matrix's loop body keeps the number of models |
| `MsimLoad.Skinned` | source/msim.cpp:171-194 | the matrix loop keeps the number of models |
| `MsimLoad.LevelOne` | source/msim.cpp:198-207 | setting one model's LOD keeps the number of models |
| `MsimLoad.LevelFrom` | source/msim.cpp:197-208 | one cluster's loop keeps the number of models |
| `MsimLoad.Leveled` | source/msim.cpp:196-209 | the cluster loop keeps the number of models |
| `MsimLoad.Instanced` | source/msim.cpp:170-210 | the instancing keeps the number of models |
| `MsimLoad.AppendedTwice` | source/msim.cpp:184-190 | adding matrices `a` and then `b` to a skin is adding `a + b` |
| `MsimLoad.SkinFromMeaning` | source/msim.cpp:174-191 | over a cluster's range each model's skin gains matrix `m` once per position that instances it, and nothing else changes |
| `MsimLoad.SkinnedMeaning` | source/msim.cpp:171-194 | after the matrix loop each model's skin gains exactly the matrices `SkinOf` lists for it, and nothing else changes |
| `MsimLoad.AtLodTwice` | source/msim.cpp:205-207 | setting a LOD and then another leaves the second |
| `MsimLoad.LevelFromMeaning` | source/msim.cpp:197-208 | over a cluster each model's primitives end at the level of its last position in the cluster, and nothing else changes |
| `MsimLoad.LeveledMeaning` | source/msim.cpp:196-209 | after the cluster loop each model's primitives are at the level the last cluster listing it gives, and nothing else changes |
| `MsimLoad.InstancedMeaning` | source/msim.cpp:170-210 | instancing keeps every stream index, adds the `SkinOf` matrices to each skin and sets each model's primitives to the level of the last cluster listing it |
| `MsimLoad.LoadedMeaning` | source/msim.cpp:145-211 | on a fresh load there are as many models as meshes, model `i` has stream index `bufferIndices[i]`, and its skin holds exactly the matrices that instance it (none without instances) |
| `MsimLoad.Loader.constructor` | source/msim.cpp:218 | a new loader has no models |
| `MsimLoad.Loader.ModelIndex` | source/msim.cpp:232-234 | `ModelIndex(id)` is model `id`'s stream index, and `out_of_range` past the models |
| `MsimLoad.Loader.LoadV1` | source/msim.cpp:145-211 | a successful load leaves the models `Loaded` gives, and a failure reports its error |
| `MsimLoad.Loader.LoadV2` | source/msim.cpp:213-215 | `LoadV2` always fails with the "not implemented" logic error |
| `MsimLoad.Loader.AddMeshes` | source/msim.cpp:154-167 | the mesh loop leaves the models `AddedMeshes` gives, or its error |
| `MsimLoad.Loader.SkinAll` | source/msim.cpp:171-194 | the matrix loop leaves the models `Skinned` gives, or its error |
| `MsimLoad.Loader.SkinCluster` | source/msim.cpp:174-191 | the cluster range loop leaves the models `SkinFrom` gives, or its error |
| `MsimLoad.Loader.LevelAll` | source/msim.cpp:196-209 | the cluster loop leaves the models `Leveled` gives, or its error |
| `MsimLoad.Loader.LevelCluster` | source/msim.cpp:197-208 | the loop over one cluster leaves the models `LevelFrom` gives, or its error |
| `Msmd.Detected` | source/msmd.cpp:240-250 | with AutoDetectEndian the flag is dropped and the id decides: `ID_BIG` selects big-endian, `ID` little-endian, any other id is an invalid header; without it the flags stand |
| `Msmd.BasePass` | source/msmd.cpp:236-267 | the base pass keeps the buffer length |
| `Msmd.VersionBytes` | source/msmd.cpp:252-256 | the version reads as `v` exactly when its four stored bytes are `v` in the byte order the flags select |
| `Msmd.BasePassRejects` | source/msmd.cpp:238-249 | ProcessDataOut is refused first, then an unknown id when detecting; both leave the buffer as it was |
| `Msmd.BasePassDetects` | source/msmd.cpp:240-250 | auto-detection with id `ID_BIG` is the pass asked for big-endian data, with `ID` the pass asked for little-endian data |
| `Msmd.BasePassDispatches` | source/msmd.cpp:258-266 | once the byte order is known version 10011 is the V1 pass and 10112 the V2 pass, on the header with the base set to it; any other version is an invalid version |
| `Msmd.BasePassMismatch` | source/msmd.cpp:236-267 | a big-endian V2 header and a little-endian V1 header are rejected by the dispatched pass's guard |
| `Msmd.V1PointersFit` | source/msmd.cpp:160-166 | the V1 header's 22 pointer fields lie inside it at distinct offsets |
| `Msmd.V1ArraysFit` | source/msmd.cpp:168-219 | the counts of the V1 header's arrays lie inside it |
| `Msmd.V1Bytes` | source/msmd.cpp:158 | the header's swap keeps the buffer length |
| `Msmd.V1Pass` | source/msmd.cpp:153-222 | the V1 pass keeps the buffer length |
| `Msmd.V1Arrays` | source/msmd.cpp:168-219 | the array loops keep the buffer length |
| `Msmd.V1Names` | source/msmd.cpp:204-207 | the TGLDNames loop keeps the buffer length |
| `Msmd.V1Blocks` | source/msmd.cpp:221 | the BVSC block pass keeps the buffer length |
| `Msmd.V1PassRejects` | source/msmd.cpp:155-158 | the V1 pass refuses ProcessDataOut, then little-endian data, then AutoDetectEndian, before touching anything, and a header that does not fit fails with OutOfBounds |
| `Msmd.V1BytesMeaning` | source/msmd.cpp:158 | after the swap every word of the header reads big-endian and nothing outside it changes |
| `Msmd.V1RefsMeaning` | source/msmd.cpp:160-166 | each of the 22 pointers holds `base` plus the offset the swapped header stores there |
| `Msmd.V1ArraysOnlySwap` | source/msmd.cpp:168-203 | the arrays other than TGLDNames change no reference, and fail only with NullReference, WildReference or OutOfBounds |
| `Msmd.V1NamesFixed` | source/msmd.cpp:204-207 | every TGLDNames element is swapped and then holds `base` plus its stored offset; no pointer outside the array changes |
| `Msmd.V1BlocksFollow` | source/msmd.cpp:221 | the first BVSC block is reached whatever its count: a null items pointer fails with NullReference, otherwise the block's pass ends the V1 pass |
| `Msmd.V2PointersFit` | source/msmd.cpp:230-233 | the V2 header's 11 pointer fields lie inside it at distinct offsets |
| `Msmd.V2Pass` | source/msmd.cpp:224-234 | the V2 pass keeps the buffer length |
| `Msmd.V2PassMeaning` | source/msmd.cpp:224-234 | the V2 pass refuses ProcessDataOut, then big-endian data, then AutoDetectEndian; when it passes no byte changes and each of its 11 pointers holds `base` plus its stored offset |
| `Msmd.DataSpanPass` | source/msmd.cpp:143-151 | the span pass keeps the buffer length |
| `Msmd.DataSpanMeaning` | source/msmd.cpp:143-151 | the span's words are swapped exactly for big-endian data; either way `data` holds `base` plus the offset read in the data's byte order, and no other reference changes |
| `Msmd.TexturesPass` | source/msmd.cpp:104-117 | the texture header pass keeps the buffer length |
| `Msmd.TexturesPassRebases` | source/msmd.cpp:111-112 | the textures pointer is fixed up against the record's own address: the pass does not depend on the caller's base |
| `Msmd.EntryPass` | source/msmd.cpp:119-127 | the entry pass keeps the buffer length |
| `Msmd.EntryPassIsWalk` | source/msmd.cpp:119-127 | past its guards one entry's pass is the walk over a one-entry array that swaps it and fixes up its `data` |
| `Msmd.BlockPass` | source/msmd.cpp:129-141 | the block pass keeps the buffer length |
| `Msmd.BlockRefsMeaning` | source/msmd.cpp:135-136 | `entries` and `main` hold `base` plus the offsets the swapped block stores |
| `Msmd.BlockPassEntries` | source/msmd.cpp:138-140 | when the block pass passes every entry's `data` holds the block's `base` plus the entry's swapped offset |
| `Msmd.ProcessBase` | source/msmd.cpp:236-267 | the method on the buffer object ends in the state `BasePass` gives |
| `Msmd.ProcessV1Header` | source/msmd.cpp:153-222 | the method on the buffer object ends in the state `V1Pass` gives |
| `Msmd.ProcessV1Arrays` | source/msmd.cpp:168-219 | the method on the buffer object ends in the state `V1Arrays` gives |
| `Msmd.ProcessV2Header` | source/msmd.cpp:224-234 | the method on the buffer object ends in the state `V2Pass` gives |
| `Msmd.ProcessDataSpan` | source/msmd.cpp:143-151 | the method on the buffer object ends in the state `DataSpanPass` gives |
| `Msmd.ProcessTextures` | source/msmd.cpp:104-117 | the method on the buffer object ends in the state `TexturesPass` gives |
| `Msmd.ProcessEntry` | source/msmd.cpp:119-127 | the method on the buffer object ends in the state `EntryPass` gives |
| `Msmd.ProcessBlock` | source/msmd.cpp:129-141 | the method on the buffer object ends in the state `BlockPass` gives |
| `Mstm.HeaderPointersFit` | source/mstm.cpp:46-48 | the header's six pointer fields lie inside it at distinct offsets |
| `Mstm.LookupPointersFit` | source/mstm.cpp:29 | the lookup header's two pointer fields lie inside it at distinct offsets |
| `Mstm.HeaderBytes` | source/mstm.cpp:16-19 | the header's swap keeps the buffer length |
| `Mstm.HeaderBytesMeaning` | source/mstm.cpp:16-19 | after the word swap and `std::swap(unk00, unk01)` both 16-bit fields and every later word read big-endian, and nothing outside the header changes |
| `Mstm.LookupHead` | source/mstm.cpp:12-14 | the lookup header's word swap keeps the buffer length |
| `Mstm.LookupPass` | source/mstm.cpp:21-37 | the lookup pass keeps the buffer length |
| `Mstm.LookupArrays` | source/mstm.cpp:31-36 | the two element loops keep the buffer length and every reference |
| `Mstm.LookupPassRejects` | source/mstm.cpp:24-26 | the lookup pass refuses AutoDetectEndian, then little-endian data, then ProcessDataOut, in that order and before touching anything |
| `Mstm.LookupRefsMeaning` | source/mstm.cpp:27-29 | `bufferLookups` and `meshIndices` are fixed up against the record from the offsets its swapped words hold |
| `Mstm.LookupPassFixes` | source/mstm.cpp:24-29 | a passing lookup pass had big-endian flags without auto-detection or data-out, its record lies in the buffer, and its references are those of the record's fixups |
| `Mstm.LookupPassEmpty` | source/mstm.cpp:27-36 | with both arrays empty the lookup pass only swaps the record's words and fixes its pointers |
| `Mstm.HeaderRefsMeaning` | source/mstm.cpp:44-48 | the header's six pointers are fixed up against the header from the offsets its swapped words hold |
| `Mstm.HeaderPass` | source/mstm.cpp:39-78 | the header pass keeps the buffer length |
| `Mstm.HeaderStart` | source/mstm.cpp:41-49 | the header's own part keeps the buffer length, and when it passes the guards were met and the header lies in the buffer |
| `Mstm.HeaderRest` | source/mstm.cpp:50-77 | the rest of the header pass keeps the buffer length |
| `Mstm.Included` | source/mstm.cpp:53-69 | the three optional records keep the buffer length |
| `Mstm.ElementSwaps` | source/mstm.cpp:71-77 | the two element loops keep the buffer length and every reference |
| `Mstm.HeaderPassRejects` | source/mstm.cpp:41-43 | the header pass refuses AutoDetectEndian, then little-endian data, then ProcessDataOut, before touching anything, and a header that does not fit fails with OutOfBounds |
| `Mstm.HeaderPassBuffersFirst` | source/mstm.cpp:49 | the lookup header is processed before anything else the header points to, whatever the exclusions; a null `buffers` pointer fails with NullReference |
| `Mstm.ModelsExcluded` | source/mstm.cpp:53-57 | with the Model exclusion the models pass never runs |
| `Mstm.ShadersExcluded` | source/mstm.cpp:59-63 | with the Shaders exclusion the shaders pass never runs |
| `Mstm.MaterialsExcluded` | source/mstm.cpp:65-69 | with the Materials exclusion the materials pass never runs |
| `Mstm.LoadFlagsAccepted` | source/mstm.cpp:102-106 | `Load`'s flags get past the guards of the header and of the lookup header, so the header pass starts exactly when the file holds a whole header |
| `Mstm.ProcessLookups` | source/mstm.cpp:21-37 | the method on the buffer object ends in the state `LookupPass` gives |
| `Mstm.SweepLookups` | source/mstm.cpp:31-36 | the method on the buffer object ends in the state `LookupArrays` gives |
| `Mstm.ProcessHeader` | source/mstm.cpp:39-78 | the method on the buffer object ends in the state `HeaderPass` gives |
| `Mstm.ProcessIncluded` | source/mstm.cpp:50-77 | the method on the buffer object ends in the state `HeaderRest` gives |
| `Mstm.SweepElements` | source/mstm.cpp:71-77 | the method on the buffer object ends in the state `ElementSwaps` gives |
| `Mstm.Split` | source/mstm.cpp:113-115 | the split exists exactly when `numBuffers` is nonzero (else a division by zero) and is the Euclidean quotient and remainder: `big == lod * numBuffers + lookupIndex` with `lookupIndex < numBuffers` |
| `Mstm.SplitJoined` | source/mstm.cpp:113-115 | splitting and joining are inverse in both directions |
| `Mstm.StreamAt` | source/mstm.cpp:116-117 | `bufferIndex[lod]` exists exactly for `lod < 2` (else OutOfBounds) and is the entry for that level |
| `Mstm.AddedMeshesMeaning` | source/mstm.cpp:111-130 | the meshes from `i` on are added exactly when each has a model; earlier models stay and mesh `t`'s model is its `MeshModel`; a failure is some failing mesh's error |
| `Mstm.LoadedMeaning` | source/mstm.cpp:99-132 | on a fresh load there is one model per mesh; model `i` splits its lookup value by the number of lookups, takes that lookup's stream index for that level, and lists the mesh's primitives at that level |
| `Mstm.Loader.constructor` | source/mstm.cpp:135 | a new loader has no models |
| `Mstm.Loader.ModelIndex` | source/mstm.cpp:145-147 | `ModelIndex(id)` is model `id`'s stream index, and `out_of_range` past the models |
| `Mstm.Loader.Load` | source/mstm.cpp:99-132 | a successful load leaves the models `Loaded` gives, and a failure reports its error |
| `Mths.NullChecksExactly` | source/mths.cpp:61-64 | the reserved-word assertions pass exactly when every checked word is zero, and a failure names the first nonzero word's assertion |
| `Mths.CheckNulls` | source/mths.cpp:84-89 | the assertions on the buffer object return `NullChecks` of its bytes |
| `Mths.ShaderGuards` | source/mths.cpp:37-39 | the shader guards pass exactly without ProcessDataOut, with big-endian data and without AutoDetectEndian |
| `Mths.RelativeOther` | source/mths.cpp:44 | a relative fixup changes no other pointer field |
| `Mths.ArrayStage` | source/mths.cpp:53-56 | one array loop keeps the buffer length, and nothing happens after a failure |
| `Mths.ShaderArraysFit` | source/mths.cpp:50-59 | the arrays of a fragment shader, and of a vertex shader, lie inside a shader that fits the buffer |
| `Mths.Arrays` | source/mths.cpp:50-59 | the array loops keep the buffer length, and nothing happens after a failure |
| `Mths.ArraysNext` | source/mths.cpp:50-59 | the loops over several arrays are the first array's loop followed by the others', in order |
| `Mths.Checked` | source/mths.cpp:61-64 | the assertions change no byte or reference, and pass exactly when every checked word is zero |
| `Mths.FragmentBody` | source/mths.cpp:43-64 | the fragment shader body keeps the buffer length |
| `Mths.FragmentAt` | source/mths.cpp:44-64 | the fragment shader fixups, loops and checks keep the buffer length |
| `Mths.ArraysChecked` | source/mths.cpp:50-64 | the loops followed by the checks keep the buffer length |
| `Mths.AttributesBody` | source/mths.cpp:74-89 | the vertex shader's additions keep the buffer length |
| `Mths.AttributesAt` | source/mths.cpp:76-89 | the attributes fixup, loop and checks keep the buffer length |
| `Mths.ShaderPass` | source/mths.cpp:35-90 | the shader pass keeps the buffer length |
| `Mths.HeaderFlags` | source/mths.cpp:94-110 | accepted flags imply the header lies in the buffer |
| `Mths.VertexStage` | source/mths.cpp:124-126 | the vertex shader stage keeps the buffer length |
| `Mths.FragmentStage` | source/mths.cpp:128-130 | the fragment shader stage keeps the buffer length |
| `Mths.HeaderBytes` | source/mths.cpp:31-33 | the header's swap keeps the buffer length |
| `Mths.HeaderPass` | source/mths.cpp:92-131 | the header pass keeps the buffer length |
| `Mths.HeaderFlagsExactly` | source/mths.cpp:94-110 | the header is accepted exactly when ProcessDataOut is absent, the id read before any swap is "MTHS", and AutoDetectEndian or EnsureBigEndian is set; the flags then ask for big-endian data without auto-detection |
| `Mths.HeaderPassRejects` | source/mths.cpp:94-115 | a header whose checks fail is refused before anything is touched; a version other than 0x2711 read big-endian is refused after the header's words were swapped |
| `Mths.HeaderRefsMeaning` | source/mths.cpp:117-122 | each of the header's ten pointers holds the header's address plus the offset it stores |
| `Mths.HeaderRefsFrame` | source/mths.cpp:119-122 | the header's fixups change no pointer field outside the header |
| `Mths.HeaderPointersDistinct` | source/mths.cpp:119-122 | the ten pointer fields are distinct |
| `Mths.HeaderPassValid` | source/mths.cpp:94-115 | a passing header pass had accepted checks and version 0x2711 read big-endian |
| `Mths.HeaderPassShaders` | source/mths.cpp:117-130 | once accepted, the pass is the vertex shader stage followed by the fragment shader stage on the swapped bytes and fixed-up pointers |
| `Mths.FragmentFixupsMeaning` | source/mths.cpp:43-48 | each of the fragment shader's five pointers holds what the matching header section refers to plus its offset |
| `Mths.FragmentFixupsFrame` | source/mths.cpp:43-48 | the fragment shader's fixups change no pointer field outside the shader |
| `Mths.RelocatedOther` | source/mths.cpp:44-48 | the relative fixups change no pointer but their own |
| `Mths.RelocatedAt` | source/mths.cpp:44-48 | each relocated pointer holds what its section pointer held before any of them, plus its offset |
| `Mths.ArrayStageNames` | source/mths.cpp:53-56 | an array loop fails exactly when a non-empty array is not inside the buffer; after a pass every element's `name` holds what the header's strings refer to plus its offset |
| `Mths.FragmentPassNulls` | source/mths.cpp:35-65 | a passing fragment shader pass had its guards met, lay inside the buffer, found the header, and leaves the four `null01` words zero |
| `Mths.VertexIsFragmentPlus` | source/mths.cpp:73 | the vertex shader pass is the fragment shader pass followed by the attributes: it fails as the fragment pass does, and otherwise continues from its state |
| `Mths.VertexPassNulls` | source/mths.cpp:67-90 | a passing vertex shader pass went through a passing fragment shader pass and leaves the six `null02` words zero |
| `Mths.ProcessArray` | source/mths.cpp:53-56 | the loop on the buffer object ends in the state `ArrayStage` gives |
| `Mths.ProcessArrays` | source/mths.cpp:50-59 | the loops on the buffer object end in the state `Arrays` gives |
| `Mths.ProcessFragmentBody` | source/mths.cpp:43-64 | the method on the buffer object ends in the state `FragmentBody` gives |
| `Mths.ProcessFragmentAt` | source/mths.cpp:44-64 | the method on the buffer object ends in the state `FragmentAt` gives |
| `Mths.FragmentFits` | source/mths.cpp:44-64 | the relocations, arrays and reserved words of a fitting fragment shader lie inside the buffer |
| `Mths.ProcessArraysChecked` | source/mths.cpp:50-64 | the method on the buffer object ends in the state `ArraysChecked` gives |
| `Mths.Relocate` | source/mths.cpp:44-48 | the relative fixups on the buffer object leave the references `Relocated` gives |
| `Mths.FixupRelative` | source/mths.cpp:44 | one relative fixup on the buffer object leaves the references `Relative` gives |
| `Mths.ProcessAttributesBody` | source/mths.cpp:74-89 | the method on the buffer object ends in the state `AttributesBody` gives |
| `Mths.ProcessAttributesAt` | source/mths.cpp:76-89 | the method on the buffer object ends in the state `AttributesAt` gives |
| `Mths.ProcessShader` | source/mths.cpp:35-90 | the method on the buffer object ends in the state `ShaderPass` gives |
| `Mths.ProcessHeader` | source/mths.cpp:92-131 | the method on the buffer object ends in the state `HeaderPass` gives |
| `Mths.ProcessHeaderFixups` | source/mths.cpp:119-122 | the fixups on the buffer object leave the references `HeaderRefs` gives |
| `Mths.ProcessShaders` | source/mths.cpp:117-130 | the method on the buffer object ends in the state of the vertex then fragment stages |
| `Mxmd.HeaderPointersFit` | source/mxmd.cpp:647-648 | the header's six pointer fields lie inside it at distinct offsets |
| `Mxmd.HeaderRefsFixed` | source/mxmd.cpp:647-648 | each of the six pointers holds the header's address plus the offset it stores |
| `Mxmd.HeaderRefsOther` | source/mxmd.cpp:647-648 | no reference other than the six pointers is added, removed or changed |
| `Mxmd.ClearedForgetsFixups` | source/mxmd.cpp:650-680 | resetting all six pointers forgets their fixups: what is left is the references from before the fixups, with the six pointers null |
| `Mxmd.HeaderPassesSized` | source/mxmd.cpp:650-680 | every pass a header calls keeps the buffer length |
| `Mxmd.LeafSized` | source/mxmd.cpp:670-680 | the texture passes keep the buffer length |
| `Mxmd.Skip` | source/mxmd.cpp:744-745 | the commented-out version 3 shaders pass passes and changes nothing |
| `Mxmd.ModelsVisited` | source/mxmd.cpp:650-656 | the models step keeps the buffer length |
| `Mxmd.ModelsVisitedMeaning` | source/mxmd.cpp:734-742 | an excluded or null models pointer resets both models and streams whatever the passes; otherwise after the model's pass a null streams pointer is skipped by version 3 and dereferenced by version 1, and any other is followed |
| `Mxmd.PartsValid` | source/mxmd.cpp:650-668 | the version 1 and version 3 passes keep the buffer length |
| `Mxmd.Sections` | source/mxmd.cpp:650-674 | the shared steps keep the buffer length |
| `Mxmd.Steps` | source/mxmd.cpp:650-680 | the shared steps and the uncached textures keep the buffer length |
| `Mxmd.V1Start` | source/mxmd.cpp:641-648 | the start of the version 1 pass keeps the buffer length, and when it passes the header lies in the buffer |
| `Mxmd.V1Rest` | source/mxmd.cpp:650-680 | the version 1 steps keep the buffer length |
| `Mxmd.V1HeaderPass` | source/mxmd.cpp:640-681 | the version 1 header pass keeps the buffer length |
| `Mxmd.LittleStart` | source/mxmd.cpp:684-690 | the start of the version 2 and 3 passes changes no byte, and when it passes the header lies in the buffer |
| `Mxmd.V2Rest` | source/mxmd.cpp:712-722 | the version 2 steps keep the buffer length |
| `Mxmd.V2HeaderPass` | source/mxmd.cpp:683-723 | the version 2 header pass keeps the buffer length |
| `Mxmd.SmtOfSized` | source/mxmd.cpp:799-805 | either streamed-texture pass `GetSMT` chooses keeps the buffer length |
| `Mxmd.V3Rest` | source/mxmd.cpp:734-767 | the version 3 steps keep the buffer length; `GetSMT` here reads the cached textures pointer as stored, the corrected behaviour |
| `Mxmd.V3RestAsWritten` | source/mxmd.cpp:756-767 | the version 3 steps as written keep the buffer length |
| `Mxmd.V3HeaderPass` | source/mxmd.cpp:725-768 | the version 3 header pass keeps the buffer length; it uses the corrected `GetSMT` choice of `V3Rest`, while the code as written is `V3RestAsWritten` |
| `Mxmd.Detected` | source/mxmd.cpp:774-785 | without AutoDetectEndian the flags stand; with it the flag is dropped, "DMXM" selects little-endian and "MXMD" big-endian, and any other magic is an invalid header |
| `Mxmd.BasePass` | source/mxmd.cpp:770-797 | the base pass keeps the buffer length |
| `Mxmd.Dispatched` | source/mxmd.cpp:787-796 | the version dispatch keeps the buffer length |
| `Mxmd.WordBytes` | source/mxmd.cpp:779 | four bytes that read `v` little-endian read big-endian what `v`'s little-endian bytes read big-endian, and conversely |
| `Mxmd.MagicsReversed` | source/mxmd.cpp:777-780 | the two magics are each other's bytes reversed |
| `Mxmd.Version1Reversed` | source/mxmd.cpp:787-788 | the version 1 number stored big-endian reads 0x38270000 little-endian |
| `Mxmd.BasePassRejects` | source/mxmd.cpp:772-784 | ProcessDataOut is refused before anything is read, and an unknown magic under AutoDetectEndian is an invalid header; both leave the buffer as it was |
| `Mxmd.BigEndianVersion1` | source/mxmd.cpp:777-789 | a detected big-endian version 1 file reaches the version 1 header pass with its bytes as stored, the version having been swapped twice, and with EnsureBigEndian set |
| `Mxmd.LittleEndianVersion1Refused` | source/mxmd.cpp:780-789 | a detected little-endian version 1 file is refused as little-endian, with its version field already swapped |
| `Mxmd.BigEndianLaterVersionsRefused` | source/mxmd.cpp:777-793 | a detected big-endian version 2 or 3 file is refused as big-endian, with its version field swapped |
| `Mxmd.ExplicitBigEndianVersion1` | source/mxmd.cpp:787-795 | without AutoDetectEndian a big-endian version 1 file reads version 0x38270000 and is refused with nothing changed |
| `Mxmd.LittleEndianDispatch` | source/mxmd.cpp:787-796 | on a host-order file versions 2 and 3 run on the bytes as stored, and any other version but 1 fails with nothing changed |
| `Mxmd.AllExcluded` | source/mxmd.cpp:650-680 | with every part excluded the version 1 pass only swaps the header and leaves the six pointers null; the version 3 pass changes no byte |
| `Mxmd.LittlePassesKeepBytes` | source/mxmd.cpp:734-767 | the passes the little-endian headers call change no byte of little-endian data |
| `Mxmd.VisitedKeeps` | source/mxmd.cpp:756-760 | a visit whose pass keeps the bytes keeps them |
| `Mxmd.LittleHeadersKeepBytes` | source/mxmd.cpp:683-768 | the version 2 and 3 header passes change no byte: a little-endian file is loaded by fixing up pointers only |
| `Mxmd.V2RestKeepsBytes` | source/mxmd.cpp:712-722 | the version 2 steps change no byte of little-endian data |
| `Mxmd.V3RestKeepsBytes` | source/mxmd.cpp:734-767 | the version 3 steps change no byte of little-endian data |
| `Mxmd.SectionsKeepBytes` | source/mxmd.cpp:734-760 | the shared steps keep the bytes when their passes do |
| `Mxmd.LittleFileKeepsBytes` | source/mxmd.cpp:770-797 | a little-endian version 2 or 3 file comes out of the base pass with the bytes it went in with |
| `Mxmd.LowTexturesExcludedAsWritten` | source/mxmd.cpp:756-767 | as written, with LowTextures excluded a file with cached textures has its streamed textures processed as a DRSM resources record, because `GetSMT` reads the pointer the step just reset |
| `Mxmd.SectionsResetCached` | source/mxmd.cpp:756-760 | with LowTextures excluded the shared steps end with the cached textures pointer null |
| `Mxmd.LowTexturesExcludedIntended` | source/mxmd.cpp:799-805 | corrected, a file that stores a cached textures pointer has its streamed textures processed as an SMT header whatever is excluded |
| `Mxmd.ProcessHeaderBase` | source/mxmd.cpp:770-797 | the method on the buffer object ends in the state `BasePass` gives |
| `Mxmd.ProcessDispatch` | source/mxmd.cpp:787-796 | the method on the buffer object ends in the state `Dispatched` gives |
| `Mxmd.ProcessSwappedV1` | source/mxmd.cpp:788-789 | the method on the buffer object ends in the state of the version 1 pass on the bytes with the version swapped back |
| `Mxmd.FixupHeader` | source/mxmd.cpp:647-648 | the fixups on the buffer object leave the references `HeaderRefs` gives |
| `Mxmd.ProcessV1Header` | source/mxmd.cpp:640-681 | the method on the buffer object ends in the state `V1HeaderPass` gives |
| `Mxmd.VisitModels` | source/mxmd.cpp:650-656 | the method on the buffer object ends in the state `ModelsVisited` gives |
| `Mxmd.ProcessSections` | source/mxmd.cpp:650-674 | the method on the buffer object ends in the state `Sections` gives |
| `Mxmd.ProcessSteps` | source/mxmd.cpp:650-680 | the method on the buffer object ends in the state `Steps` gives |
| `Mxmd.ProcessV1Rest` | source/mxmd.cpp:650-680 | the method on the buffer object ends in the state `V1Rest` gives |
| `Mxmd.ProcessV2Header` | source/mxmd.cpp:683-723 | the method on the buffer object ends in the state `V2HeaderPass` gives |
| `Mxmd.ProcessV2Rest` | source/mxmd.cpp:712-722 | the method on the buffer object ends in the state `V2Rest` gives |
| `Mxmd.ProcessV3Header` | source/mxmd.cpp:725-768 | the method on the buffer object ends in the state `V3HeaderPass` gives, with the corrected `GetSMT` choice |
| `Mxmd.ProcessV3Rest` | source/mxmd.cpp:734-767 | the method on the buffer object ends in the state `V3Rest` gives |
| `MxmdV1.BigGuards` | source/mxmd.cpp:232-234 | a big-endian-only pass goes on exactly without ProcessDataOut and AutoDetectEndian and with EnsureBigEndian, and otherwise fails with the first guard's message |
| `MxmdV1.EitherGuards` | source/mxmd.cpp:326-327 | a pass that takes either byte order goes on exactly without ProcessDataOut and AutoDetectEndian |
| `MxmdV1.Fixed` | source/mxmd.cpp:243-249 | swapping a record inside the buffer and fixing up its one pointer passes and keeps the buffer length |
| `MxmdV1.FixedMeaning` | source/mxmd.cpp:243-249 | after the swap each word of the record reads little-endian the value it held big-endian, the pointer holds the base plus its big-endian offset, and nothing outside the record and no other reference changes |
| `MxmdV1.SpanOutside` | source/mxmd.cpp:150-154 | a word swap of a span leaves every byte outside it alone |
| `MxmdV1.BonePass` | source/mxmd.cpp:243-249 | the bone pass keeps the buffer length, and when it passes the bone lies in the buffer |
| `MxmdV1.ShaderPass` | source/mxmd.cpp:467-473 | the shader pass keeps the buffer length, and when it passes the shader lies in the buffer |
| `MxmdV1.Owning` | source/mxmd.cpp:231-241 | a record that owns an array of plain values keeps the buffer length through its pass |
| `MxmdV1.OwningMeaning` | source/mxmd.cpp:231-241 | the items pointer holds the base plus the big-endian offset, no other pointer changes, the loop runs over the big-endian count, and the pass fails exactly when that array does not fit |
| `MxmdV1.SweptFixed` | source/mxmd.cpp:236-240 | the loop over a freshly fixed-up array runs from the fixed pointer over the stored count |
| `MxmdV1.BigEndianWord` | source/mxmd.cpp:150-154 | after a record's swap each of its words reads, unsigned and signed, the value it held big-endian |
| `MxmdV1.SkinPass` | source/mxmd.cpp:231-241 | the skin pass keeps the buffer length |
| `MxmdV1.MeshPass` | source/mxmd.cpp:251-261 | the mesh pass keeps the buffer length |
| `MxmdV1.MaterialPass` | source/mxmd.cpp:298-308 | the material pass keeps the buffer length |
| `MxmdV1.RecordPassesSized` | source/mxmd.cpp:231-308 | the bone, shader, skin, mesh and material passes keep the buffer length |
| `MxmdV1.ModelPointersFit` | source/mxmd.cpp:269-270 | the model's five pointers lie inside it at distinct offsets |
| `MxmdV1.ModelPass` | source/mxmd.cpp:263-295 | the model pass keeps the buffer length |
| `MxmdV1.ModelArrays` | source/mxmd.cpp:272-294 | the model's loops keep the buffer length |
| `MxmdV1.Skeleton` | source/mxmd.cpp:272-286 | the bone names, bones and floats loops keep the buffer length |
| `MxmdV1.MaterialsPass` | source/mxmd.cpp:311-322 | the materials header pass keeps the buffer length |
| `MxmdV1.ShadersPass` | source/mxmd.cpp:475-486 | the shaders header pass keeps the buffer length |
| `MxmdV1.VertexHead` | source/mxmd.cpp:329-334 | the swap and the two fixups of a vertex buffer inside the buffer pass and keep the length |
| `MxmdV1.VertexData` | source/mxmd.cpp:339-397 | the descriptors' swap and the vertex loop keep the length and change no reference |
| `MxmdV1.VertexLoop` | source/mxmd.cpp:346-397 | the vertex loop keeps the length and changes no reference |
| `MxmdV1.VertexBufferPass` | source/mxmd.cpp:325-398 | the vertex buffer pass keeps the buffer length |
| `MxmdV1.VertexBufferLittle` | source/mxmd.cpp:336-338 | on little-endian data the vertex buffer pass only fixes up its data and descriptors pointers and changes no byte |
| `MxmdV1.VertexLoopMeaning` | source/mxmd.cpp:344-393 | the vertex loop fails only with a bounds, reference or division error or the unhandled vertex type message; a zero stride is a division by zero; descriptors made only of bytes leave the data as it was |
| `MxmdV1.VertexDataFails` | source/mxmd.cpp:339-345 | the descriptors' swap fails exactly when a non-empty table lies outside the buffer, and then the vertex loop does not run |
| `MxmdV1.IndexBufferPass` | source/mxmd.cpp:401-415 | the index buffer pass keeps the buffer length |
| `MxmdV1.IndexBufferMeaning` | source/mxmd.cpp:401-415 | on big-endian data the index buffer is a record that owns its 16-bit indices; on little-endian data it only fixes up their pointer |
| `MxmdV1.BufferPassesSized` | source/mxmd.cpp:325-415 | both buffer passes keep the buffer length |
| `MxmdV1.StreamSwapped` | source/mxmd.cpp:204-208 | the stream's swap keeps the length |
| `MxmdV1.StreamPass` | source/mxmd.cpp:417-432 | the stream pass keeps the buffer length |
| `MxmdV1.SmtChecks` | source/mxmd.cpp:443-449 | the header passes its checks exactly when `unk` is at most 1 and 1 or 2 groups are used, failing with the matching message |
| `MxmdV1.SmtPass` | source/mxmd.cpp:435-465 | the streamed-texture header pass keeps the buffer length |
| `MxmdV1.Groups` | source/mxmd.cpp:453-464 | the used groups keep the buffer length |
| `MxmdV1.Group` | source/mxmd.cpp:454-463 | one group keeps the buffer length |
| `MxmdV1.SmtPassChecks` | source/mxmd.cpp:439-453 | a header that fails its checks is refused after its swap with nothing else changed; one that passes goes on to exactly its used groups |
| `MxmdV1.GroupFixes` | source/mxmd.cpp:454-463 | a null texture table fails as a null reference, and on little-endian data a group never changes a byte |
| `MxmdV1.GroupsLittle` | source/mxmd.cpp:453-464 | on little-endian data the groups change no byte |
| `MxmdV1.SmtLittle` | source/mxmd.cpp:435-465 | on little-endian data the streamed-texture header pass changes no byte |
| `MxmdV1.LittleEndianRefused` | source/mxmd.cpp:231-486 | every big-endian-only pass refuses little-endian data before changing anything |
| `MxmdV1.SwapRecord` | source/mxmd.cpp:150-154 | the buffer afterwards is its old bytes with the record's words swapped |
| `MxmdV1.ProcessBone` | source/mxmd.cpp:243-249 | the method on the buffer object ends in the state `BonePass` gives |
| `MxmdV1.ProcessShader` | source/mxmd.cpp:467-473 | the method on the buffer object ends in the state `ShaderPass` gives |
| `MxmdV1.ProcessOwning` | source/mxmd.cpp:235-240 | the method on the buffer object ends in the state `Owning` gives |
| `MxmdV1.ProcessSkin` | source/mxmd.cpp:231-241 | the method on the buffer object ends in the state `SkinPass` gives |
| `MxmdV1.ProcessMesh` | source/mxmd.cpp:251-261 | the method on the buffer object ends in the state `MeshPass` gives |
| `MxmdV1.ProcessMaterial` | source/mxmd.cpp:298-308 | the method on the buffer object ends in the state `MaterialPass` gives |
| `MxmdV1.ProcessModel` | source/mxmd.cpp:263-295 | the method on the buffer object ends in the state `ModelPass` gives |
| `MxmdV1.ProcessModelArrays` | source/mxmd.cpp:272-294 | the method on the buffer object ends in the state `ModelArrays` gives |
| `MxmdV1.ProcessSkeleton` | source/mxmd.cpp:272-286 | the method on the buffer object ends in the state `Skeleton` gives |
| `MxmdV1.ProcessMaterials` | source/mxmd.cpp:311-322 | the method on the buffer object ends in the state `MaterialsPass` gives |
| `MxmdV1.ProcessShaders` | source/mxmd.cpp:475-486 | the method on the buffer object ends in the state `ShadersPass` gives |
| `MxmdV1.ProcessVertexBuffer` | source/mxmd.cpp:325-398 | the method on the buffer object ends in the state `VertexBufferPass` gives |
| `MxmdV1.ProcessVertexData` | source/mxmd.cpp:339-397 | the method on the buffer object ends in the state `VertexData` gives |
| `MxmdV1.ProcessVertexLoop` | source/mxmd.cpp:346-397 | the method on the buffer object ends in the state `VertexLoop` gives |
| `MxmdV1.ProcessIndexBuffer` | source/mxmd.cpp:401-415 | the method on the buffer object ends in the state `IndexBufferPass` gives |
| `MxmdV1.ProcessStream` | source/mxmd.cpp:417-432 | the method on the buffer object ends in the state `StreamPass` gives |
| `MxmdV1.ProcessSmt` | source/mxmd.cpp:435-465 | the method on the buffer object ends in the state `SmtPass` gives |
| `MxmdV1.ProcessGroup` | source/mxmd.cpp:454-463 | the method on the buffer object ends in the state `Group` gives |
| `MxmdV3.LittleGuards` | source/mxmd.cpp:560-565 | a version 3 pass goes on exactly without EnsureBigEndian, ProcessDataOut and AutoDetectEndian, and big-endian data fails first with the NoBigEndian message |
| `MxmdV3.MaterialGuards` | source/mxmd.cpp:620-625 | the material passes go on exactly when the other version 3 passes do, but ProcessDataOut is reported first |
| `MxmdV3.Fixes` | source/mxmd.cpp:574-579 | fixing up pointer fields that lie in the buffer passes and changes no byte |
| `MxmdV3.PointersFit` | source/mxmd.cpp:574-617 | the pointer fields of the skin, the morph control, the model, the morphs header and the buffer manager lie inside their records |
| `MxmdV3.MeshPass` | source/mxmd.cpp:560-565 | the mesh pass changes no byte |
| `MxmdV3.BonePass` | source/mxmd.cpp:567-572 | the bone pass changes no byte |
| `MxmdV3.SkinPass` | source/mxmd.cpp:574-579 | the skin pass changes no byte |
| `MxmdV3.MorphControlPass` | source/mxmd.cpp:582-587 | the morph control pass changes no byte |
| `MxmdV3.MaterialPass` | source/mxmd.cpp:620-625 | the material pass changes no byte |
| `MxmdV3.MorphDescriptorPass` | source/mxmd.cpp:507-513 | the morph descriptor pass changes no byte |
| `MxmdV3.MorphsHeaderPass` | source/mxmd.cpp:516-522 | the morphs header pass changes no byte |
| `MxmdV3.BufferManagerPass` | source/mxmd.cpp:525-536 | the buffer manager pass changes no byte; the morph header it points to is not followed |
| `MxmdV3.SmtPass` | source/mxmd.cpp:489-492 | the streamed-texture header pass keeps the buffer length |
| `MxmdV3.VertexBufferPass` | source/mxmd.cpp:495-498 | the vertex buffer pass keeps the buffer length |
| `MxmdV3.IndexBufferPass` | source/mxmd.cpp:501-504 | the index buffer pass keeps the buffer length |
| `MxmdV3.LeafPassesSized` | source/mxmd.cpp:489-587 | the record passes without loops keep the buffer length |
| `MxmdV3.MorphsPass` | source/mxmd.cpp:589-598 | the morphs pass keeps the buffer length |
| `MxmdV3.MorphsPassSized` | source/mxmd.cpp:589-598 | the morphs pass keeps the buffer length for every input |
| `MxmdV3.ModelPass` | source/mxmd.cpp:600-617 | the model pass keeps the buffer length |
| `MxmdV3.MaterialsPass` | source/mxmd.cpp:628-638 | the materials header pass keeps the buffer length |
| `MxmdV3.StreamPass` | source/mxmd.cpp:538-558 | the stream pass keeps the buffer length |
| `MxmdV3.PassesSized` | source/mxmd.cpp:489-638 | the model, materials, stream and streamed-texture passes keep the buffer length |
| `MxmdV3.EachKeeps` | source/mxmd.cpp:595-597 | a loop over records whose pass changes no byte changes no byte |
| `MxmdV3.ForEachKeeps` | source/mxmd.cpp:606-608 | a loop over a pointed-to array whose pass changes no byte changes no byte |
| `MxmdV3.ReusedKeepBytes` | source/mxmd.cpp:489-504 | the version 1 passes that version 3 reuses for its buffers and streamed textures change no byte, since they only see little-endian data |
| `MxmdV3.PassesKeepBytes` | source/mxmd.cpp:538-638 | the morphs, model, materials and stream passes change no byte: version 3 data is already in host order and only pointers are fixed up |
| `MxmdV3.MorphsKeepBytes` | source/mxmd.cpp:589-598 | the morphs pass changes no byte |
| `MxmdV3.ModelKeepsBytes` | source/mxmd.cpp:600-617 | the model pass changes no byte |
| `MxmdV3.MaterialsKeepBytes` | source/mxmd.cpp:628-638 | the materials header pass changes no byte |
| `MxmdV3.StreamKeepsBytes` | source/mxmd.cpp:538-558 | the stream pass changes no byte |
| `MxmdV3.BigEndianRefused` | source/mxmd.cpp:489-638 | every version 3 pass refuses big-endian data before changing anything, the material passes reporting ProcessDataOut first |
| `MxmdV3.ModelOptional` | source/mxmd.cpp:606-616 | after the model's fixups the meshes are always looped over, while a null morphs or skin pointer is skipped; the skin runs after the morphs |
| `MxmdV3.FixupAll` | source/mxmd.cpp:574-579 | the fixups on the buffer object leave the state `Fixes` gives |
| `MxmdV3.ProcessMesh` | source/mxmd.cpp:560-565 | the method on the buffer object ends in the state `MeshPass` gives |
| `MxmdV3.ProcessSkin` | source/mxmd.cpp:574-579 | the method on the buffer object ends in the state `SkinPass` gives |
| `MxmdV3.ProcessMaterial` | source/mxmd.cpp:620-625 | the method on the buffer object ends in the state `MaterialPass` gives |
| `MxmdV3.ProcessBufferManager` | source/mxmd.cpp:525-536 | the method on the buffer object ends in the state `BufferManagerPass` gives |
| `MxmdV3.ProcessMorphs` | source/mxmd.cpp:589-598 | the method on the buffer object ends in the state `MorphsPass` gives |
| `MxmdV3.ProcessModel` | source/mxmd.cpp:600-617 | the method on the buffer object ends in the state `ModelPass` gives |
| `MxmdV3.ProcessModelParts` | source/mxmd.cpp:606-616 | the method on the buffer object ends in the state of the model's three loops |
| `MxmdV3.ProcessMaterials` | source/mxmd.cpp:628-638 | the method on the buffer object ends in the state `MaterialsPass` gives |
| `MxmdV3.ProcessStream` | source/mxmd.cpp:538-558 | the method on the buffer object ends in the state `StreamPass` gives |
| `MxmdVertices.VertexSwap` | source/mxmd.cpp:347-393 | a known descriptor type swaps values of 1, 2 or 4 bytes, and swaps nothing exactly for the types made of bytes; any other type is the "Unhandled vertex type" error |
| `MxmdVertices.VertexSwapMatchesFormat` | source/mxmd.cpp:347-393 | the loop handles every type the format conversion accepts and three more, leaves alone the types stored as four bytes, and swaps the others by the width of their components |
| `MxmdVertices.SwapPiece` | source/mxmd.cpp:351-355 | swapping the values of a piece keeps the buffer length |
| `MxmdVertices.Strided` | source/mxmd.cpp:351-355 | the loop over the vertices keeps the length and the references and fails only out of bounds |
| `MxmdVertices.StridedOutcome` | source/mxmd.cpp:351-355 | whether the loop gets through depends on the buffer's length only, not on its bytes |
| `MxmdVertices.SwapPieceOf` | source/mxmd.cpp:352-354 | a swapped piece is the bytes around it with the piece's values reversed |
| `MxmdVertices.SwapPieceInvolutive` | source/mxmd.cpp:352-354 | swapping a piece twice restores the buffer |
| `MxmdVertices.SwapPieceElsewhere` | source/mxmd.cpp:352-354 | a piece's swap leaves every span outside it as it was |
| `MxmdVertices.SwapPieceAt` | source/mxmd.cpp:352-354 | each byte of a swapped buffer is the reversed piece's byte inside the piece and the old byte outside |
| `MxmdVertices.SwapPieceCommute` | source/mxmd.cpp:351-355 | swaps of two disjoint pieces commute |
| `MxmdVertices.StridedCommute` | source/mxmd.cpp:351-355 | the rest of the loop commutes with a swap of the same shape before it |
| `MxmdVertices.StridedInvolutive` | source/mxmd.cpp:351-355 | when the fields of two vertices do not overlap, running the loop twice restores the buffer: swapping big-endian vertex data is its own inverse |
| `MxmdVertices.StridedAgain` | source/mxmd.cpp:351-355 | the second loop starts by undoing the first vertex's swap, after which the rest works on the original bytes |
| `MxmdVertices.Column` | source/mxmd.cpp:347-393 | one descriptor's turn keeps the length and the references |
| `MxmdVertices.Columns` | source/mxmd.cpp:346-397 | the loop over the descriptors keeps the length and the references |
| `MxmdVertices.ColumnsUntouched` | source/mxmd.cpp:383-391 | descriptors whose types are made of bytes leave the vertex data as it was |
| `MxmdVertices.ColumnsFail` | source/mxmd.cpp:346-397 | an unknown type makes the loop fail, and the loop fails otherwise only with a bounds or reference error of the data |
| `MxmdVertices.DescriptorsAt` | source/mxmd.cpp:339-341 | the table holds one descriptor per entry, each a 16-bit type followed by a 16-bit size |
| `MxmdVertices.SwapColumn` | source/mxmd.cpp:347-393 | the method on the buffer object ends in the state `Column` gives |
| `MxmdVertices.SwapStrided` | source/mxmd.cpp:351-355 | the method on the buffer object ends in the state `Strided` gives |
| `MxmdVertices.SwapVertex` | source/mxmd.cpp:352-354 | one vertex's field is swapped exactly when it lies in the buffer, and otherwise the method fails out of bounds with nothing changed |
| `MxmdVertices.SwapVertices` | source/mxmd.cpp:346-397 | the method on the buffer object ends in the state `Columns` gives |
| `Tfbh.StrideMeaning` | toolset/common/tfbh.hpp:47-60 | each slot's stride is its component count times its component size, 4, 8 or 12 bytes for the five vertex slots and 0 exactly for the index slots and beyond |
| `Tfbh.Zeros` | toolset/common/tfbh.hpp:144 | growing the buffer appends exactly `n` zero bytes |
| `Tfbh.HeaderImage` | toolset/common/tfbh.hpp:106-111 | a value-initialised header is 20 bytes long |
| `Tfbh.WithArray` | toolset/common/tfbh.hpp:140-150 | `SetArray` grows the buffer by the size of its items |
| `Tfbh.ArrayStored` | toolset/common/tfbh.hpp:141-146 | after `SetArray` the record holds the item count, truncated to 32 bits, and its items start exactly at the old end of the buffer |
| `Tfbh.ArrayFrame` | toolset/common/tfbh.hpp:140-150 | `SetArray` changes no byte of the old buffer outside the record's eight, and the appended items are zero |
| `Tfbh.Pow256Word` | toolset/common/tfbh.hpp:142 | a 32-bit field holds values below 2^32 |
| `Tfbh.ItemStable` | toolset/common/tfbh.hpp:115-126 | a record that `SetArray` does not write reads the same after the buffer grew, so an item that keeps a position stays valid |
| `Tfbh.Builder.constructor` | toolset/common/tfbh.hpp:131-135 | a new header builder holds exactly the 20 bytes of a value-initialised header |
| `Tfbh.Builder.Get` | toolset/common/tfbh.hpp:125 | an item reads a record exactly when its record lies in the buffer, and then reads the record at its position |
| `Tfbh.Builder.SetArray` | toolset/common/tfbh.hpp:140-150 | a record inside the buffer is set as `WithArray` says and an item for it is returned; one outside is refused with nothing changed |
| `Tfbh.ArrowDiffers` | toolset/common/tfbh.hpp:124 | as written, `operator->` returns no pointer, where the intended one reaches the record `Get` reads |
| `Tfbh.ArrowReaches` | toolset/common/tfbh.hpp:124-125 | corrected, `operator->` keeps reaching the record it reached before while `SetArray` grows the buffer |
| `Tfbh.HeaderStreams` | toolset/common/tfbh.hpp:106-111 | a fresh header builder holds the TFBH id and version 1, and after `SetArray` of `n` streams the header counts them and they start right after the header |

## Left out

- Assertions (`assert`) in the source become `Assertion` errors. Examples are `numEncKeys == 2` and `null == 0` in `source/bdat.cpp`, the DRSM stream-index checks, the MTHS reserved null fields, the `mipIndex` checks of LBIM and MTXT, and the first-frame check of `AnimationTrack::Sample`. A build with `NDEBUG` skips them; the model always checks them.
- Undefined behaviour ends a pass with an error rather than being modelled:
  - a dereference of a null pointer is `NullReference`;
  - a dereference of a pointer field that was never fixed up is `WildReference`;
  - an index out of range, a read past the end of the file, or a record outside the buffer is `OutOfBounds`;
  - a division by a zero stride is `DivisionByZero`.
- Arh.Walk: the `while (parentId)` loop of `toolset/arh/extract_arh.cpp` does not end on a cyclic trie. The model gives up with `Runtime(Cycle)` after as many links as the trie has nodes. `Arh.CycleEndless` proves that the source's loop would never end on any such input.
- Blocks.Target: the block offset `(h * bWidth + w) * bpp` of `source/lbim.cpp` and `source/mtxt.cpp` is a `uint32`, but the model does not truncate it. The decoders' layout lemmas assume `Lbim.Fit` (the surface fits in 32 bits), where the two agree. A surface of 4 GiB or more is not modelled.
- The GPU tiling address functions (`computeSurfaceAddrFromCoordMacroTiled`, `computeSurfaceAddrFromCoordMicroTiled`) and their precomputed parameters are not part of this model. They are parameters of the MTXT decoder.
- The MXMD version 1 model, shader and material passes that MSIM and MSTM call are parameters of their header passes.
- Bc.Relocate: the source re-reads `numPointers` and the `fixups` pointer from the header on every iteration. The model reads them once, before the loop, and reads each table entry from the current bytes. The two differ only when an entry names a word of the header itself, which the relocation lemmas exclude.
- The version 2 MXMD record types (`mxmd_v2.inl`) are not part of this model. The version 2 header is taken to have the version 1 layout, with a DRSM texture table for its cached textures and a version 1 SMT header for its uncached textures.
- `MORPHVERTEXID` and `NORMALMORPH` are used by `source/mxmd.cpp` but are missing from the enum in `include/xenolib/internal/mxmd.hpp`. They are modelled as two descriptor kinds of their own, without numeric codes.
- BdatCipher.EncryptedSection: `EncryptSection` draws its key from `std::random_device`. The key is a parameter.
- The public MSIM and MSTM headers declare `LoadV1`/`LoadV2`, where the sources define `Wrap::Load`. The model follows the `.cpp` files.
- MsimLoad.Loader.LoadV1 and Mstm.Loader.Load read their input arrays as values (`Source`). Reading those values out of the processed bytes is not modelled.
- MsimLoad.Loader.LoadV1: after a failure its contract gives the error but not the models the loader then holds. The source keeps the models it appended before the failure. The same holds for Mstm.Loader.Load.
- Mstm.StreamAt: a mesh lookup value whose LOD part is 2 or more indexes past `bufferIndex[2]`, which is undefined behaviour. The model reports `OutOfBounds`.
- Floating point is not modelled:
  - the cubic curve evaluation of `source/bc.cpp` (the frame times of `Sample` are integers);
  - the bone-weight quantisation and the weight codecs of `include/xenolib/internal/model.hpp`;
  - the float comparison of `KVPair::operator==`, which is a parameter.
- `IndexBuffer::IndexSize` and `NumIndices` of `include/xenolib/internal/model.hpp` are a constant and a field read. They are not modelled.
- File input (`BinReaderRef`), the `Wrap`/`Impl` ownership of the loaded buffers, the zlib decompression of `source/xbc1.cpp`, and the exporters of the tools are not part of this model.
- `es::PointerX86`, the self-relative pointer of TFBH, is not part of this model. Its stored offset is read as an unsigned 32-bit field.

## Findings

| source | as written | input that shows it | evidently intended | confidence | as-written member | corrected member |
|---|---|---|---|---|---|---|
| source/bdat.cpp:84-93 | `FindKey` returns `ck`, the first key descriptor, when descriptor `k` carries the name | a table whose second descriptor carries the name: the first one is returned | return descriptor `k` | not executed | `BdatLookup.FindKeyAsWrittenMisnames` | `BdatLookup.FoundKeyNamed` |
| source/bdat.cpp:95-115 | `FindBlock` returns `values`, the first row, when row `b` matches | a table whose second row holds the probe: the first row is returned | return row `b` | not executed | `BdatLookup.FindBlockAsWrittenReturnsFirst` | `BdatLookup.FoundBlockMatches` |
| source/bdat.cpp:41-43 | the 32-bit integer types are compared through `asU16`, only their low 16 bits | a U32 value 0x10000 compared with 0 is reported equal | compare all 32 bits | not executed | `BdatLookup.KVPairEqualsAsWrittenCollides` | `BdatLookup.KVPairEqualsMeaning` |
| source/mxmd.cpp:756-767 | the LowTextures exclusion resets `cachedTextures` before `GetSMT` (source/mxmd.cpp:799-805) reads it | a version 3 file with cached textures loaded with LowTextures excluded: its streamed textures are processed as a DRSM resources record | choose by the pointer as stored | not executed | `Mxmd.LowTexturesExcludedAsWritten` | `Mxmd.LowTexturesExcludedIntended` |
| toolset/common/tfbh.hpp:124 | `BuilderItem::operator->` has no `return` statement | any item: the returned pointer is undefined | return the record's address, as `Get` does | not executed | `Tfbh.ArrowDiffers` | `Tfbh.ArrowReaches` |
