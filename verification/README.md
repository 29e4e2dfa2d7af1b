# moulars: a verified model

moulars is a server for a shared online world. This project models, in Dafny 4.11, the
parts of it that carry state or format: the file ciphers and the streams around them, the
binary formats of messages and archives, the SDL (state description language) parser,
codec and upgrade, and the vault, a graph of records that many connections share. It
proves what those parts promise each other. `dafny verify dfyconfig.toml` checks all of it.

Code of the source that updates things in place is a class or a method with loops here,
proved against a function; code that computes is a function. Streams are byte sequences,
strings are sequences of Unicode scalar values, floats and UUIDs are bit patterns.

| files | subject |
|---|---|
| `Prim`, `Text`, `Ranking` | fixed-width integers, results, little-endian words, bit masks; UTF-8, UTF-16, Latin-1; graphs without circles |
| `Cipher`, `CipherVectors`, `FileCrypt` | TEA and XXTEA on blocks in place; what they make of given blocks; the encrypting writer and the reader |
| `SafeString`, `Key`, `BitVector`, `Creatable`, `Pak` | the recursive binary formats |
| `KnownBytes` | given values and their bytes, in every format |
| `SdlTokens`, `SdlGrammar`, `SdlParser`, `SdlLoading` | tokens, grammar, the parser object, what accepted descriptors guarantee |
| `SdlSpelling`, `SdlLayout`, `SdlRange` | which tokens spell which descriptors, which texts hold which tokens, and which descriptors a text can give |
| `SdlTypes`, `SdlValues`, `SdlDefaults`, `SdlBuild`, `SdlInitial`, `SdlCodec` | descriptors, the database, default states, when they can be built and what is in them, the stream format |
| `SdlRoundTrip`, `SdlStamps`, `SdlRuns`, `SdlLoops`, `SdlUpgrade` | the round trip, timestamps, every run of reads and setters, the source's loops, the upgrade |
| `VaultNode`, `VaultDb`, `VaultRefs`, `VaultMemory` | node records, the database and its messages, the ref query, the objects behind them |
| `VaultScripts`, `VaultWorld`, `VaultSessions` | scripts of messages, any interleaving of the messages of scripts and sessions, what each event keeps |
| `VaultRuns`, `VaultOwners`, `VaultWitness` | what every run keeps, whose players connections hold, and runs that show what is not kept |
| `VaultGraph`, `VaultShape`, `VaultContents` | the graph that finished scripts leave, its folders by number, and what is in their nodes |

What a format or an algorithm computes is said in terms of its own: the ciphers by known
answers, the stream formats by known bytes, the parser by a relation between texts and
descriptors that is read off neither the tokenizer nor the grammar
(`SdlLayout.ParsesIffSaid`), default states by what they hold (`SdlInitial.DefaultState`),
and the scripts by the numbers of the folders they leave (`VaultShape.RunSettled`).

Properties that the code does not have are stated with the exact condition under which it
does: strings whose first unit has its high bit set (`SafeString.RoundTrip`) and all formats
that contain strings, archive names (`Pak.RoundTrip`), SDL states in blobs
(`SdlRoundTrip.BlobRoundTrip`), values equal to a default but not identical to it
(`SdlRuns.DefaultSimpleIff`), timestamps (`SdlStamps.PlainBlobIff`), databases whose
defaults cannot be built (`SdlBuild.BuildsIffSound`), ten thousand elements
(`SdlRuns.LongVariable`), long runs of nested states (`SdlRuns.NestedIndexLimit`), upgrades
that panic (`SdlUpgrade.UpgradePanicsIff`), upgraded states
(`SdlUpgrade.UpgradeLostOnStore`), default states that deny being default
(`SdlLoading.ParsedDefaultIff`), text written without encryption
(`FileCrypt.UnencryptedRoundTrip`), two connections that hold one player
(`VaultRuns.ClashIffOverlap`), and players that a second selection leaves online
(`VaultRuns.StrandedRunIff`). Where such a property has to do with a run, there is a run
from the initial state that shows it (`VaultWitness`).

## Model

| member | source | states |
|---|---|---|
| Cipher.XxteaInverse | src/plasma/file_crypt.rs:319-369 | Deciphering undoes enciphering, for every key and every block of two or more words whose length does not vanish as a 32-bit number |
| Cipher.XxteaInverse2 | src/plasma/file_crypt.rs:319-369 | Enciphering undoes deciphering, so both are permutations of the blocks |
| Cipher.XxteaEncipherInPlace | src/plasma/file_crypt.rs:344-369 | The nested loops that update the block in place compute the round function iterated 6 + 52/n times; `CipherVectors.XxteaZero` and `CipherVectors.XxteaDefault` say what that gives |
| Cipher.XxteaDecipherInPlace | src/plasma/file_crypt.rs:319-342 | The loop that runs while the sum is positive ends after exactly that many rounds and computes the inverse rounds in reverse order, so that it undoes the known answers |
| Cipher.SumNonZero | src/plasma/file_crypt.rs:325-341 | The running sum is not zero before its last round, which is why the decipher loop does not stop early |
| Cipher.SumIsProduct | src/plasma/file_crypt.rs:325-326 | The wrapping product that the decipherer starts from is the sum that the encipherer ends with |
| Cipher.TeaInverse | src/plasma/file_crypt.rs:274-310 | The two-word cipher is undone, and its start constant is 32 deltas modulo 2^32 |
| Cipher.TeaEncipherInPlace | src/plasma/file_crypt.rs:293-310 | The loop over a two-word block computes the 32 rounds of the specification |
| Cipher.TeaDecipherInPlace | src/plasma/file_crypt.rs:274-291 | The loop over a two-word block computes the 32 inverse rounds |
| CipherVectors.XxteaZero | src/plasma/file_crypt.rs:344-369 | The block of two zeros under the zero key enciphers to 053704AB 575D8C80, worked out in all 32 rounds |
| CipherVectors.XxteaDefault | src/plasma/file_crypt.rs:344-369 | The block 1, 2 under the built-in key, whose words all differ, enciphers to 0BF73FD8 E3964B43 |
| CipherVectors.ThreeWords | src/plasma/file_crypt.rs:350-368 | One round of a block of three words, in which the neighbours of a word differ, has the words that each step gives |
| CipherVectors.KeyOrder | src/plasma/file_crypt.rs:312-317 | In which order a round takes the words of the key, for each value of the two bits of the sum that decide it |
| CipherVectors.TeaZero | src/plasma/file_crypt.rs:293-310 | The two-word cipher turns zeros under the zero key into DEE9D4D8 F7131ED9 |
| CipherVectors.TeaDefault | src/plasma/file_crypt.rs:293-310 | And the block 1, 2 under the built-in key into 89F6CD47 0415CF5A |
| FileCrypt.BlockInverse | src/plasma/file_crypt.rs:116-128 | Eight bytes, taken as two little-endian words, come back from either cipher |
| FileCrypt.Writer.constructor | src/plasma/file_crypt.rs:176-193 | A new writer has written the magic and a size of zero, and holds no text |
| FileCrypt.Writer.Write | src/plasma/file_crypt.rs:223-246 | However the bytes come, the text grows by exactly them and all full blocks are on the stream, nothing before the start being touched |
| FileCrypt.Writer.Flush | src/plasma/file_crypt.rs:248-262 | After a flush the stream holds the complete text with its size, and writing can go on as if there had been no flush |
| FileCrypt.FlushTail | src/plasma/file_crypt.rs:248-255 | The partial block that a flush writes leaves the header and the earlier blocks as they were |
| FileCrypt.FlushSize | src/plasma/file_crypt.rs:256-261 | Writing the size back into the header seals the file and leaves the blocks as they were |
| FileCrypt.SealedHeader | src/plasma/file_crypt.rs:96-113 | The reader recognises a sealed file's mode and finds its text's length |
| FileCrypt.SealedText | src/plasma/file_crypt.rs:116-160 | Any range of the text is what deciphering the blocks around it gives |
| FileCrypt.Reader.Read | src/plasma/file_crypt.rs:136-160 | A read of any size delivers the next bytes of the text, up to its end, and moves past them |
| FileCrypt.RoundTrip | src/plasma/file_crypt.rs:95-262 | For either cipher, any sequence of writes and flushes, read back in any chunk sizes, gives the text as far as it was read |
| FileCrypt.UnencryptedRoundTrip | src/plasma/file_crypt.rs:179-182 | Without encryption the reader delivers four zeros, the text and what the stream held further on; as far as it is read, that is the text if and only if the text is zeros only, and a longer read never gives the text |
| KnownBytes.Magics | src/plasma/file_crypt.rs:39-81 | The marks of the two kinds of encrypted file, letter by letter, and the older one that is recognised too |
| KnownBytes.OneBlock | src/plasma/file_crypt.rs:69-81 | A sealed file of one given block, for either cipher: the mark, the length and the eight enciphered bytes |
| Text.Utf8RoundTrip | src/plasma/safe_string.rs:58-59 | UTF-8 decoding undoes encoding |
| Text.TruncatedUtf8 | src/sdl/state_variable.rs:472-481 | A text cut at any byte of its encoding decodes as itself if and only if it ends in a replacement character and the cut is inside that |
| Text.Utf16RoundTrip | src/plasma/safe_string.rs:36-47 | UTF-16 decoding undoes encoding, with surrogate pairs |
| Text.Latin1RoundTrip | src/plasma/safe_string.rs:60-63 | Latin-1 decoding undoes encoding if and only if all characters are Latin-1 |
| KnownBytes.Characters | src/plasma/safe_string.rs:67-98 | Characters of one to four bytes in UTF-8 and of one and two units in UTF-16 |
| KnownBytes.BrokenOff | src/plasma/safe_string.rs:58-59 | A piece of UTF-8 that could have begun a character decodes to one replacement character |
| KnownBytes.NeverBegun | src/plasma/safe_string.rs:58-59 | Each byte that could not decodes to one of its own |
| KnownBytes.HalfSurrogates | src/plasma/safe_string.rs:36-47 | A surrogate without its other half decodes to a replacement character |
| SafeString.RoundTrip | src/plasma/safe_string.rs:27-98 | What is written is read back, and the following bytes are left, as the string itself if and only if it survives: it is empty or its first unit has the high bit clear, and the encoding can express it |
| SafeString.ReadSafeStr | src/plasma/safe_string.rs:27-65 | The reader with its in-place complement loops agrees with the specification on every stream |
| SafeString.WriteSafeStr | src/plasma/safe_string.rs:67-98 | The writer's loop agrees with the specification, with its length limit |
| SafeString.ComplementInPlace | src/plasma/safe_string.rs:49-57 | The loop complements every byte of the buffer |
| KnownBytes.StringBytes | src/plasma/safe_string.rs:67-98 | The bytes of every short Latin-1 string: the length with its upper four bits set, then each character complemented |
| KnownBytes.OldString | src/plasma/safe_string.rs:27-65 | The older form with a plain length and two bytes to pass over is read as well, for every string that begins below 80 hexadecimal |
| Key.UoidRoundTrip | src/plasma/key.rs:89-146 | An object id is read back with nothing more consumed, and equals the original if and only if its name survives |
| Key.KeyRoundTrip | src/plasma/key.rs:46-68 | An optional key is read back with nothing more consumed, and equals the original if and only if its name survives |
| KnownBytes.Keys | src/plasma/key.rs:121-146 | The bytes of an object id in which all fields are present and all bytes differ |
| BitVector.Vector.Set | src/plasma/bit_vector.rs:42-51 | Setting a bit, growing the vector if need be, changes that bit only |
| BitVector.RoundTrip | src/plasma/bit_vector.rs:54-74 | The words are read back and nothing more is consumed |
| Creatable.RoundTrip | src/plasma/factory.rs:30-74 | A tree that was written is read back as the same tree if and only if every name in it survives, all callbacks are messages, unwritten fields are default and the depth bound admits it; whatever is read, exactly its bytes are consumed |
| Creatable.BodyRoundTrip | src/plasma/factory.rs:37-62 | The same for the body of each class the factory knows, and the class stays |
| Creatable.WithCallbacksRoundTrip | src/plasma/messages/message_with_callbacks.rs:34-66 | The message with its tree of callbacks is read back if and only if header and callbacks survive |
| Creatable.AnimRoundTrip | src/plasma/messages/anim_cmd_msg.rs:43-79 | The animation message over its base is read back if and only if base and names survive |
| Creatable.LinkingRoundTrip | src/plasma/messages/linking_mgr_msg.rs:45-79 | The linking message is read back if and only if what its content flags leave out is default and the rest survives |
| Creatable.ListRoundTrip | src/plasma/messages/linking_mgr_msg.rs:105-185 | The item list is read back, compressed or not, if zlib is lossless, and if and only if its items survive and it did not claim to be compressed already |
| Creatable.UnpackPack | src/plasma/messages/linking_mgr_msg.rs:105-185 | The reader undoes the choice between the plain and the compressed form of the list, and drops the flag that records it |
| Creatable.PackedIff | src/plasma/messages/linking_mgr_msg.rs:147-185 | A list is stored compressed, and marked so, if and only if its flags ask for it, it has 256 bytes or more, and it gets shorter |
| Creatable.GenericRoundTrip | src/plasma/net_common/generic_value.rs:54-139 | Every kind of generic value is read back with nothing more consumed, and equals the original if and only if its string survives |
| Creatable.MessageRoundTrip | src/plasma/messages/message.rs:55-90 | The message header is read back with nothing more consumed, and equals the original if and only if sender and receivers survive |
| Creatable.DepthIrrelevant | src/plasma/factory.rs:37-62 | A greater depth bound changes no answer that a smaller one gave, so the model's bound decides nothing but running out |
| Creatable.NetSafeIffNoLink | src/plasma/messages/message_with_callbacks.rs:68-77 | A message is net safe if and only if neither it nor any of its transitive callbacks is a linking message |
| Creatable.MakeNetSafe | src/plasma/messages/message_with_callbacks.rs:68-77 | The loop over the callbacks, stopping at the first unsafe one, decides just that |
| Creatable.ReadCallbackLoop | src/plasma/messages/message_with_callbacks.rs:34-52 | The reading loop, with its null and interface checks, agrees with the specification on every stream |
| Creatable.WriteCallbackLoop | src/plasma/messages/message_with_callbacks.rs:54-66 | The writing loop agrees with the specification |
| Creatable.ReadItemLoop | src/plasma/messages/linking_mgr_msg.rs:105-145 | The loop over list items agrees with the specification on every buffer |
| KnownBytes.Animation | src/plasma/messages/anim_cmd_msg.rs:62-79 | The bytes of an animation message: class, header, callbacks, bits, parameters in order, names |
| KnownBytes.Linking | src/plasma/messages/linking_mgr_msg.rs:63-79 | The bytes of a linking message with its command and an empty list |
| KnownBytes.Values | src/plasma/net_common/generic_value.rs:96-139 | The tags and bytes of generic values, under their class |
| Pak.RoundTrip | src/plasma/pak_file.rs:59-115 | An archive that is written is read back up to its names, and unchanged if and only if all names survive |
| Pak.OffsetsPoint | src/plasma/pak_file.rs:84-115 | Each offset in the table of contents is the position of that file's size header, after which its data follow |
| KnownBytes.Archive | src/plasma/pak_file.rs:82-115 | The bytes of an archive of two files: count, names with offsets, sizes with data |
| Pak.StreamWrite | src/plasma/pak_file.rs:82-115 | The writer with its running offset agrees with the specification, with its errors |
| Pak.StreamRead | src/plasma/pak_file.rs:59-80 | The reader's two loops agree with the specification on every stream |
| Pak.ThroughEncryption | src/plasma/pak_file.rs:59-115 | Every archive that can be written comes back through the encrypting writer and the reader, in any pieces, up to its names, and unchanged if and only if they survive |
| SdlTypes.MergeDescriptors | src/sdl/descriptor_db.rs:37-45 | The loop that files descriptors agrees with the merge of the specification |
| SdlTypes.MergeFirstWins | src/sdl/descriptor_db.rs:37-45 | Of several descriptors with one name, case aside, and one version, the first is the one that is looked up |
| SdlTypes.MergeKeepsFiled | src/sdl/descriptor_db.rs:37-45 | Every descriptor stays filed under its own name and version |
| SdlTypes.Largest | src/sdl/descriptor_db.rs:85-91 | The latest version is the largest one there is |
| SdlTypes.LatestFiled | src/sdl/descriptor_db.rs:77-91 | The latest descriptor of a name can be looked up by its own name and version |
| SdlValues.ScalarRoundTrip | src/sdl/state_variable.rs:362-500 | An element of any type is read back if and only if the format can carry it; whatever is read, exactly its bytes are consumed |
| SdlValues.ScalarsRoundTrip | src/sdl/state_variable.rs:600-730 | So is a run of elements, if and only if each of them can be carried |
| SdlValues.String32Reads | src/sdl/state_variable.rs:710-718 | A fixed-size string comes back if and only if it has no NUL and at most 31 bytes, or is cut inside a replacement character at its end |
| KnownBytes.Elements | src/sdl/state_variable.rs:600-730 | The bytes of single values: signed numbers, byte colours from blue to red, times |
| KnownBytes.Vectors | src/sdl/state_variable.rs:600-730 | The bytes of vectors, rotations and float colours, part by part |
| KnownBytes.FloatBits | src/sdl/state_variable.rs:84-93 | Which floats are equal: the zeros are, infinity is to itself, and nothing that is not a number is |
| SdlBuild.FromDefaults | src/sdl/state.rs:41-53 | On any database, the loop that sorts variables into simple and nested ones computes the default state, the panic, or the exhausted stack of the specification; `SdlInitial.DefaultState` says what is in the state |
| SdlBuild.VariableFromDefaults | src/sdl/state_variable.rs:130-224 | So does the loop over nested default states; `SdlInitial.BuiltInitial` says what is in the variable |
| SdlBuild.BuildsDefault | src/sdl/state_variable.rs:205-225 | On a sound database the recursion ends with the default state, at a depth that the ranks of the nested states bound |
| SdlBuild.BuildsIffSound | src/sdl/state_variable.rs:130-224 | For every database: each of its descriptors has a default state if and only if it is sound, that is, defaults are of the right variants, names resolve, and default states do not nest in circles |
| SdlBuild.CircleOverflows | src/sdl/state_variable.rs:205-214 | A descriptor whose default states nest in a circle exhausts any stack |
| SdlBuild.SelfReference | src/sdl/state_variable.rs:205-214 | The witness: a descriptor that refers to itself does no harm if and only if the variable has no elements by default |
| SdlInitial.BuiltInitial | src/sdl/state_variable.rs:130-224 | Whatever is built, on any database: the variables are those of the descriptor in its order, untouched; each has as many elements as its count, each of them the given default, or else zero, the identity rotation or opaque black by its type; nested states are such states of the latest descriptor of their name |
| SdlInitial.InitialOnly | src/sdl/state_variable.rs:130-224 | That determines the state |
| SdlInitial.DefaultState | src/sdl/state.rs:41-53 | So the method answers the one state that is as said, and on a sound database it fails only for want of depth |
| SdlDefaults.LatestRank | src/sdl/state_variable.rs:205-225 | A descriptor of which a default nests states is of lower rank than the variable they are nested in |
| SdlRoundTrip.SizeRoundTrip | src/sdl/state.rs:220-248 | A size is read back in the width that its hint decides, if it fits |
| SdlCodec.WrittenFlags | src/sdl/state_variable.rs:600-612 | Each bit of the first byte that a variable is written with: a timestamp, values left out as default, dirty; no other bit is set |
| SdlCodec.ReadFlags | src/sdl/state_variable.rs:362-380 | For every first byte that leaves the values out, the time that the variable gets: the one that follows, the one of the clock, or the one it has |
| KnownBytes.SmallBlob | src/sdl/state.rs:109-185 | The bytes of the blob of a state of two variables of which one is dirty: mark, name, version, flags, format, count, index, hint, flags, value, no nested ones |
| SdlRoundTrip.SimpleRoundTrip | src/sdl/state_variable.rs:362-500 | A simple variable without a timestamp is read back if and only if its values can be carried, or, where it is stored as default, are identical to the default |
| SdlRoundTrip.VarRoundTrip | src/sdl/state_variable.rs:323-346 | A dirty variable is read back into the default one, with hint and dirty flag, if and only if hint and values can be carried |
| SdlRoundTrip.NestedRoundTrip | src/sdl/state_variable.rs:524-598 | Nested states are rebuilt from the latest descriptor though no version is stored, if and only if there are fewer than ten thousand and each can be carried or is clean without flags |
| SdlRoundTrip.SectionRoundTrip | src/sdl/state.rs:67-140 | Only dirty variables are stored, with or without indices, and all are rebuilt, if and only if each can be carried |
| SdlRoundTrip.StateRoundTrip | src/sdl/state.rs:67-140 | A whole state without timestamps is read back into a default one if and only if its contents can be carried; whatever is read, exactly its bytes are consumed |
| SdlRoundTrip.BlobRoundTrip | src/sdl/state.rs:142-185 | The blob of a state that satisfies the invariant and has no timestamps reads back as the state if and only if the format can carry its contents, its object and its descriptor's name |
| SdlRuns.RunInv | src/sdl/state_variable.rs:111-125 | In every state reached by defaults, reads of any bytes and setters: clean variables are default, values agree with their descriptors in variant and length, nested states are at the latest descriptor |
| SdlRuns.ReadStateInv | src/sdl/state.rs:67-107 | A successful read of any bytes keeps that invariant |
| SdlRuns.DefaultStateInv | src/sdl/state.rs:41-53 | Default states satisfy it |
| SdlRuns.FromBlobInv | src/sdl/state.rs:142-167 | So does every state that comes out of a blob |
| SdlRuns.ReachableRoundTrip | src/sdl/state.rs:142-185 | Every reachable state without timestamps reads back from its blob if and only if the format can carry it, and then its blob is the same again |
| SdlRuns.DefaultSimpleIff | src/sdl/state_variable.rs:600-611 | A variable stored as default comes back if and only if it has no timestamp and its values are identical to the default, not only equal |
| SdlRuns.NegativeZeroLost | src/sdl/state_variable.rs:227-314 | The witness: negative zero, stored where zero is the default, comes back as zero |
| SdlRuns.TenThousandElements | src/sdl/state_variable.rs:348-360 | Whether a count is stored or given by the descriptor, it is written up to ten thousand elements and read back exactly when it is less |
| SdlRuns.LongVariable | src/sdl/state_variable.rs:600-730 | So a variable that is not at its default, with elements that can be carried, is written up to ten thousand elements and comes back if and only if it has fewer |
| SdlStamps.StampLost | src/sdl/state_variable.rs:600-615 | A variable with a timestamp does not come back from the end of a stream, since the time is announced and not written |
| SdlStamps.SimpleIff | src/sdl/state_variable.rs:362-500 | A variable of any type but creatables and nested states comes back from the end of a stream if and only if it has no timestamp and its values can be carried |
| SdlStamps.ReadsCost | src/sdl/state.rs:67-107 | However the reading loop goes astray, what it has read has cost at least the bytes that the dirty variables need, and eight more after an announced timestamp |
| SdlStamps.StampedState | src/sdl/state.rs:67-140 | A state without nested states, of which some dirty variable has a timestamp, is never read back from what was written |
| SdlStamps.PlainBlobIff | src/sdl/state.rs:142-185 | With or without timestamps, the blob of such a state reads back as the state if and only if it has none and the format can carry the rest |
| SdlRuns.NestedIndexLimit | src/sdl/state_variable.rs:569-598 | A variable-length run of nested states can be written if and only if each dirty one can, at most 255 are dirty, and, when some are clean, none of the dirty ones is beyond the first 256 |
| SdlRuns.FixedCountWritten | src/sdl/state_variable.rs:569-598 | With a fixed count the run can be written if and only if each dirty state can |
| SdlLoops.Write | src/sdl/state.rs:109-140 | The two counting and writing loops agree with the specification of the stream format |
| SdlLoops.Read | src/sdl/state.rs:67-107 | The reading loops, with and without indices, agree with it on every stream |
| SdlLoops.WriteStatedesc | src/sdl/state_variable.rs:569-598 | The loop over nested states agrees with it |
| SdlLoops.ReadStatedesc | src/sdl/state_variable.rs:524-550 | The loop that reads nested states agrees with it |
| SdlUpgrade.UpgradePanicsIff | src/sdl/state.rs:197-217 | An upgrade panics if and only if the database has no descriptor of the name, or the state is not at the latest one and the default test of a variable whose name is kept reaches a fixed-length Point3 |
| SdlUpgrade.UpgradeResult | src/sdl/state.rs:197-217 | With distinct names, an upgrade happens exactly when the descriptor is not the latest, and unless it panics each variable of the latest descriptor is the default one or carries values over |
| SdlUpgrade.UpgradeKeeps | src/sdl/state_variable.rs:763-799 | Each upgraded variable has the old values if the old one of its name is not at default and has the same type and count, and the new default otherwise; all are clean |
| SdlUpgrade.UpgradeTwice | src/sdl/state.rs:197-207 | A second upgrade finds nothing to do |
| SdlUpgrade.UpgradeLostOnStore | src/sdl/state_variable.rs:791-799 | An upgraded state's blob reads back as the defaults, so it is the upgraded state if and only if the old one has no value to carry over that differs from the new default |
| SdlUpgrade.DefaultIffNothingCarried | src/sdl/state_variable.rs:763-799 | An upgraded state is all default if and only if no variable of the old state, with a new one of its name, type and count, has values off its default that differ from the new default |
| SdlUpgrade.UpgradeLoses | src/sdl/state_variable.rs:791-799 | The witness: any integer but zero is carried over by an upgrade and lost when the upgraded state is stored |
| SdlUpgrade.SimpleDefaultPanicsIff | src/sdl/state_variable.rs:227-314 | The default test of well-formed values panics if and only if they are of a fixed-length Point3 |
| SdlUpgrade.DefaultPanicsIff | src/sdl/state_variable.rs:227-314 | With nested states it panics if and only if a fixed-length Point3 is reached before anything that is not at its default |
| SdlUpgrade.UpgradeLoop | src/sdl/state.rs:197-217 | The loops that search and update the new variables agree with the specification, with its panics |
| SdlParser.Parser.NextLine | src/sdl/parser.rs:88-184 | Reading a line moves its tokens to the queue and leaves the tokens to come as they were |
| SdlParser.Parser.TokenizeLine | src/sdl/parser.rs:98-183 | The scanning loops find exactly the tokens of the line, with their locations |
| SdlParser.Parser.NextToken | src/sdl/parser.rs:73-81 | The first of the tokens to come is taken, and no other is lost or moved; the search for a line ends |
| SdlParser.Parser.PushFront | src/sdl/parser.rs:298-308 | A token put back is the next one again |
| SdlParser.Parser.TakeDefault | src/sdl/parser.rs:316-409 | The method answers, and leaves unread, what the grammar says of the tokens, for each type; `SdlSpelling.ValueParsed` and `SdlSpelling.ValueSpelled` say which tokens give which default |
| SdlParser.Parser.TakeOptions | src/sdl/parser.rs:279-313 | The optional fields end before the first token that is none of theirs, which stays unread |
| SdlParser.Parser.TakeVar | src/sdl/parser.rs:230-314 | A variable is parsed as the grammar says |
| SdlParser.Parser.TakeSequence | src/sdl/parser.rs:471-487 | The loop over a parenthesised list ends and agrees with the grammar |
| SdlParser.Parser.TakeStatedesc | src/sdl/parser.rs:200-228 | A descriptor is parsed as the grammar says, with the line that a missing version is reported for |
| SdlParser.Parser.ParseText | src/sdl/parser.rs:186-198 | On every input the parser ends and answers what the grammar says of the whole token list |
| SdlSpelling.FoldIff | src/sdl/parser.rs:233-253 | A name folds to a word of small letters if and only if it is that word with any of its letters large |
| SdlSpelling.NumbersIff | src/sdl/parser.rs:421-440 | A numeral is accepted for a type of integer if and only if it is a number in range in decimal digits, after any zeros and, where signed, a minus sign |
| SdlSpelling.TypeParsed | src/sdl/parser.rs:230-258 | A token names a type if and only if it is one of the words for it in any case, or a reference to a descriptor |
| SdlSpelling.ValueParsed | src/sdl/parser.rs:316-487 | Every spelling of a default is read as that default: words in any case, digits or words for booleans, single values with or without parentheses, lists of the right length |
| SdlSpelling.ValueSpelled | src/sdl/parser.rs:316-487 | And nothing else is accepted as a default |
| SdlSpelling.OptionsParsed | src/sdl/parser.rs:279-313 | Options, semicolons and defaults may follow a variable in any number and order; the last default counts, and the options after it leave it |
| SdlSpelling.ParsesIffSpelled | src/sdl/parser.rs:186-409 | The grammar accepts a list of tokens with some descriptors if and only if the tokens spell them |
| SdlLayout.TakesIff | src/sdl/parser.rs:98-183 | The tokenizer takes a token of a number of bytes if and only if these bytes write it and the next one does not go on with it, with strings that lack their end and bytes that begin nothing |
| SdlLayout.TokensIff | src/sdl/parser.rs:88-184 | A text has just those tokens, at those lines and columns, that stand on its lines with blanks between them and comments at the ends |
| SdlLayout.ParsesIffSaid | src/sdl/parser.rs:88-409 | Tokens and grammar together accept exactly the texts that say some descriptors, with those |
| SdlLayout.ParseText | src/sdl/parser.rs:69-198 | So does the parser object: an accepted text says the descriptors in the answer, and a rejected one says none |
| SdlRange.SaidIff | src/sdl/parser.rs:186-409 | Some text says a list of descriptors if and only if their names are names, their counts have 64 bits, and their defaults are of their types, with floats that a numeral stands for, whole seconds, and full opacity where no opacity can be given |
| SdlLoading.ParsedTyped | src/sdl/parser.rs:316-409 | Every accepted descriptor's defaults are of the variant its type expects, and none is a NaN |
| SdlLoading.LoadAll | src/sdl/descriptor_db.rs:52-67 | The loop over files agrees with merging what each parses to, or fails with the first failure |
| SdlLoading.LoadSound | src/sdl/state_variable.rs:130-224 | For a database read from texts: building the defaults of every descriptor ends without a panic if and only if no name is missing and default states do not nest in circles, where variables of no elements or of variable length do not count |
| SdlLoading.DefaultIsDefault | src/sdl/state_variable.rs:227-314 | A default state calls itself default if and only if nothing in it is of variable length, a Point3 or a NaN |
| SdlLoading.ParsedDefaultIff | src/sdl/state_variable.rs:227-314 | For a descriptor read from a text: its default state calls itself default if and only if all its variables, and those of the latest descriptors it refers to, have fixed lengths and are no Point3 |
| SdlLoading.DefaultSelfEqual | src/sdl/state_variable.rs:84-93 | A default that equals itself, as every parsed one does, makes every element of the default state equal to itself |
| VaultNode.Set | src/vault/vault_node.rs:96-153 | A setter changes one value and keeps the rule that a field whose bit is unset holds its default |
| VaultNode.Record.SetField | src/vault/vault_node.rs:96-153 | So does the setter of the object |
| VaultNode.Built | src/vault/vnode_access.rs:50-63 | A node on which setters were called has exactly those fields |
| VaultNode.SetBuilt | src/vault/vnode_access.rs:50-63 | The order of different setters does not matter |
| VaultNode.Determined | src/vault/vault_node.rs:58-94 | A node that keeps the rule is determined by its map of set fields and the bits without a field |
| VaultNode.UpdateOverrides | src/vault/db_memory.rs:345-442 | The 31-fold update is the right-biased override of maps apart from the node id, and keeps the rule |
| VaultNode.ApplyUpdate | src/vault/db_memory.rs:345-442 | The sequence of conditional setters on a copy computes that update |
| VaultNode.UpdateAssociates | src/vault/db_memory.rs:345-442 | Updating twice is updating once with the combined update |
| VaultNode.NodeMatch | src/vault/db_memory.rs:248-343 | The comparison with its early exits decides whether the node agrees with every field that the template has, case aside for two of them |
| VaultNode.MatchIffUnchanged | src/vault/db_memory.rs:248-343 | A node matches a template if and only if updating it with the template would change no value, case aside |
| VaultNode.MatchInAnyCase | src/vault/db_memory.rs:248-343 | Of the fields that a template asks for, another value still matches only in fields 26 and 27, and there if and only if it is the same in another case |
| VaultNode.MatchAfterUpdate | src/vault/db_memory.rs:174-193 | An updated node matches its update |
| VaultNode.StringRoundTrip | src/vault/vault_node.rs:407-432 | Every string comes back, with its NULs, and nothing more is consumed |
| VaultNode.Read | src/vault/vault_node.rs:487-543 | Whatever bytes a node is read from, it keeps the mask rule |
| VaultNode.RoundTrip | src/vault/vault_node.rs:303-312 | A node that keeps the rule is read back from what was written, with unknown bits, and nothing more is consumed |
| VaultNode.WritesIff | src/vault/vault_node.rs:587-626 | Writing fails if and only if a text or blob that is set is too large |
| VaultNode.WriteNode | src/vault/vault_node.rs:587-626 | The sequence of conditional writes agrees with the specification |
| VaultNode.ReadNode | src/vault/vault_node.rs:487-543 | The sequence of conditional reads agrees with it on every stream |
| KnownBytes.Kinds | src/vault/vault_node.rs:487-543 | The type of each of the 32 fields, by its bit |
| KnownBytes.NodeValues | src/vault/vault_node.rs:407-432 | The bytes of a negative number, a text with its terminator and a blob |
| KnownBytes.FolderBytes | src/vault/vault_node.rs:587-626 | The bytes of a node with two fields: the mask of eight bytes, then the fields in the order of their bits |
| VaultDb.CreateKeyed | src/vault/db_memory.rs:154-165 | A created node gets the next id, and ids stay consecutive and equal to their keys |
| VaultDb.UpdateFindable | src/vault/db_memory.rs:174-193 | After a successful update, a search for the update finds the node |
| VaultDb.PlayerOrderly | src/vault/server.rs:68-104 | Creating a player keeps the limit, the distinctness of names and the agreement of records with nodes |
| VaultDb.PlayerAnswered | src/vault/server.rs:68-104 | A player is refused if and only if the name is taken, case aside, or the account has five; otherwise the account has its records and one more, with the next id, and no other account changes |
| VaultDb.ProcessOrderly | src/vault/server.rs:54-154 | So does every message, if updates spare Player nodes |
| VaultDb.RunOrderly | src/vault/server.rs:54-154 | In every run of messages: ids are exactly 1000 up to the counter and equal their keys, no account has more than five players, names are distinct case aside, and each record names a Player node with that account and name |
| VaultDb.RunExtends | src/vault/server.rs:54-154 | Every run of messages from the empty vault can be continued by every message that spares Player nodes |
| VaultMemory.DbMemory.AddNode | src/vault/db_memory.rs:154-165 | A node that is added is found under a fresh id with exactly its fields and that id, no other node or ref or record changes, and ids stay consecutive |
| VaultMemory.DbMemory.ChangeNode | src/vault/db_memory.rs:174-183 | So for an update, a missing node being refused |
| VaultMemory.DbMemory.FindNodes | src/vault/db_memory.rs:185-193 | In whatever order the nodes are met, each that matches is listed once and no other |
| VaultMemory.DbMemory.GetSystemNode | src/vault/db_memory.rs:195-202 | A system node is returned, or there is none |
| VaultMemory.DbMemory.GetAllPlayersNode | src/vault/db_memory.rs:204-213 | An all-players list is returned, or there is none |
| VaultMemory.DbMemory.GetPlayerInfoNode | src/vault/db_memory.rs:215-227 | An info node of the player among the player's refs is returned, or there is none |
| VaultMemory.DbMemory.PlayerExists | src/vault/db_memory.rs:127-134 | The nested search finds a name exactly when some account has it, case aside |
| VaultMemory.DbMemory.AddPlayer | src/vault/server.rs:68-104 | The checks, the node and the record are those of the specification, with its errors |
| VaultMemory.Worker.FetchPlayer | src/auth_srv/server.rs:841-870 | Up to the first answer of the vault, the worker does what the event of the state machine does: only the owner of the player goes on, which `VaultOwners.FetchIff` says by the player records |
| VaultMemory.Worker.QueryInfo | src/auth_srv/server.rs:872-890 | With whichever info node the vault answers, the worker goes on only if it is offline |
| VaultMemory.Worker.Commit | src/auth_srv/server.rs:892-904 | The update is sent without another look at the flag, and the player is held if it succeeds |
| VaultMemory.Worker.QueryLeave | src/auth_srv/server.rs:912-920 | A connection that ends asks for the info node of the player it holds, or is gone |
| VaultMemory.Worker.Leave | src/auth_srv/server.rs:922-936 | That node goes offline |
| VaultRefs.FetchRefs | src/vault/db_memory.rs:234-245 | On refs without cycles, met in any order, the recursive query ends and returns each ref once for every path that ends in it; the plain query, on any refs, returns each ref of the parent once |
| VaultRefs.PathsTo | src/vault/db_memory.rs:234-245 | The finite set that is counted holds all ref paths from the node to the ref and nothing else |
| VaultRefs.AcyclicDescends | src/vault/db_memory.rs:234-245 | Refs without cycles go down a rank, the number of nodes that can be reached, which is why the query ends |
| VaultRefs.FetchedIffReachable | src/vault/db_memory.rs:234-245 | As a set, the recursive result is exactly the reachable refs |
| VaultScripts.OnlineUpdate | src/vault/vnode_access.rs:140-149 | The update sets the id, the online flag, the age name and the age id, and nothing else |
| VaultScripts.ScriptsReady | src/auth_srv/vault_helpers.rs:28-241 | Both scripts fill each slot once, use only filled slots, and link only down the ranks; `VaultShape.RunSettled` says what they leave |
| VaultWorld.CreateOk | src/auth_srv/vault_helpers.rs:31-93 | A script's creation keeps the whole invariant, whatever other scripts are doing |
| VaultWorld.LinkOk | src/auth_srv/vault_helpers.rs:100-124 | So does a script's ref, which joins existing nodes and goes down |
| VaultWorld.InfoUnique | src/vault/db_memory.rs:215-227 | At most one node can answer for a player |
| VaultSessions.CommitAllOk | src/auth_srv/server.rs:892-904 | A selection's update keeps, in any interleaving, the state of the vault and that only a linked info node is online |
| VaultSessions.CommitSessionsOk | src/auth_srv/server.rs:892-904 | It also keeps that held players are online and held once, as long as no other selection of the player is under way |
| VaultSessions.LeaveSessionsOk | src/auth_srv/server.rs:912-936 | So does the update of a connection that ends |
| VaultSessions.StepAllOk | src/vault/server.rs:54-154 | Every event keeps the first invariant: the vault is orderly, its graph goes down, scripts have what they need, sessions are where their messages say, and an unlinked info node is offline |
| VaultSessions.StepOk | src/auth_srv/server.rs:832-936 | Every event that does not let a second selection of a player overlap a first keeps the second: held players are online and held once |
| VaultRuns.InitOk | src/vault/server.rs:320-342 | The initial vault satisfies the invariant |
| VaultRuns.RunAllOk | src/auth_srv/vault_helpers.rs:28-241 | In every interleaving of the messages of any number of player scripts, age scripts and sessions, the first invariant holds at every step |
| VaultRuns.RunInv | src/auth_srv/server.rs:832-936 | In every such run in which selections of one player do not overlap, the second holds too |
| VaultRuns.RunExtends | src/vault/server.rs:54-154 | Every run can be continued by every event |
| VaultRuns.GraphDescends | src/auth_srv/vault_helpers.rs:100-124 | Every ref joins two existing nodes and goes strictly down a rank of node type and folder kind |
| VaultRuns.NoCycle | src/vault/db_memory.rs:234-245 | No chain of refs leads back to where it began |
| VaultRuns.InfoFound | src/vault/db_memory.rs:215-227 | A player whose script is done has exactly one info node to be found: the one that the script created |
| VaultRuns.QueryAnswered | src/vault/server.rs:320-342 | A script's query for the system node or the all-players list always has an answer |
| VaultGraph.RunGraph | src/auth_srv/vault_helpers.rs:28-241 | In every run: each ref is of the initial vault or made by a link that some script has executed, each executed link has left its ref, no node belongs to two scripts or twice to one, and there is one System node and one list of all players |
| VaultShape.LinkedIff | src/auth_srv/vault_helpers.rs:100-217 | Which nodes the two scripts link, and that only the link to an owner names one |
| VaultShape.ChildrenAre | src/auth_srv/vault_helpers.rs:100-217 | Once a script has ended, the children of each node it has made are exactly those it linked |
| VaultShape.EndedFurnished | src/auth_srv/vault_helpers.rs:28-217 | A Player node then has exactly one child of each of the folder kinds 1, 2, 3, 4, 6, 7, 14, 23, 24, 25 and 28, each of its node type, one info node and the System node; an Age node and an AgeInfo node have theirs; and none has any other |
| VaultShape.EndedReached | src/auth_srv/vault_helpers.rs:28-241 | Every node that the script created, but the Age node, can be reached from the Player node or the Age node |
| VaultShape.RunSettled | src/auth_srv/vault_helpers.rs:28-241 | All this in every run, at every step after the end of a script, whatever other scripts and sessions do; the info node is in the list of all players and, owned by the player, in the list of the age's owners; the three links are below the owned ages and the first leads to the age's info |
| VaultContents.InfoIs | src/vault/vnode_access.rs:120-129 | The fields of a new info node, by number |
| VaultContents.InitContents | src/vault/server.rs:320-342 | The fields of the three nodes of the initial vault, its one ref and its next id |
| VaultContents.RunContents | src/vault/vnode_access.rs:51-300 | In every run, the nodes that scripts have made have the fields, by number, that they were made with: the player's account, name and shape, the creators, types and kinds of folders, the texts of links, and the names, ids and SDL of ages |
| VaultContents.SessionPlaces | src/auth_srv/server.rs:892-936 | Completing a selection sets the flag, the place "Lobby" and no age on the info node, leaving clears flag and place, and no other field or node changes |
| VaultOwners.RunOwners | src/auth_srv/server.rs:841-870 | In every run, each Player node is of the account that has its record, and no connection is on its way to a player of another account |
| VaultOwners.SelectsOwn | src/auth_srv/server.rs:841-904 | So a connection that has passed the first or second check of a selection is logged in with the account that has the player's record |
| VaultOwners.HoldsOwn | src/auth_srv/server.rs:832-910 | In every run, a connection holds a player only if it took it, at some earlier step, logged in with the account that has the player's record |
| VaultOwners.FetchIff | src/auth_srv/server.rs:841-870 | In every run, the first check succeeds for exactly the players whose record the account has |
| VaultOwners.OneAccount | src/vault/server.rs:68-104 | In every run, a player's record is in one account |
| VaultRuns.OneHolder | src/auth_srv/server.rs:832-936 | Under the second invariant no two connections hold one player, and a held player is marked online |
| VaultRuns.TwoCommits | src/auth_srv/server.rs:880-904 | When two connections have both seen a player offline, both can go on to hold it, in either order |
| VaultRuns.ClashIffOverlap | src/auth_srv/server.rs:880-904 | After an event, two selections that can both succeed exist if and only if the event let them overlap: the condition for a single holder is exact |
| VaultWitness.TwoHoldersReachable | src/auth_srv/server.rs:832-910 | The witness: a run from the initial vault that ends with two connections holding one player |
| VaultRuns.OfflineIff | src/auth_srv/server.rs:912-936 | In every run, an online player goes offline in a step if and only if the step is the last message of a connection that holds the player |
| VaultRuns.OnlineOnlyByCommit | src/auth_srv/server.rs:892-904 | An offline player goes online only by a selection that saw it offline |
| VaultRuns.ReselectStrands | src/auth_srv/server.rs:892-904 | Under the second invariant a connection that selects another player leaves the first one online with no holder, and no selection can end that |
| VaultRuns.StrandedIff | src/auth_srv/server.rs:832-936 | Whatever overlaps, after a step a player is online with no holder if and only if the step is the second selection of its only holder, or it was so before and the step does not complete an older selection of it |
| VaultRuns.StrandedRunIff | src/auth_srv/server.rs:832-936 | In every run from the initial vault, a player is online with no holder if and only if its only holder selected another player at some earlier step and no older selection of it has been completed since |
| VaultRuns.CalmStrandedIff | src/auth_srv/server.rs:832-936 | In runs in which selections of one player do not overlap, if and only if a connection that held it selected another player at some earlier step |
| VaultWitness.StrandedReachable | src/auth_srv/server.rs:832-910 | The witness: a run from the initial vault, one account with two players, that strands the first |
| VaultRuns.StrandedForever | src/auth_srv/server.rs:832-936 | A player is online with no holder now and after any events if and only if it is so now and no connection has seen it offline and has yet to mark it online |
| VaultRuns.StrandedRun | src/auth_srv/server.rs:880-890 | In every run from there on it stays so, and no connection gets past the check of the online flag |
| VaultWitness.RescueReachable | src/auth_srv/server.rs:832-910 | The witness: a run from the initial vault in which a player is online with no holder and is then held, by a selection that had overlapped the first |

## Left out

- The object graph of SDL states: states and variables are values here, so sharing of descriptors by reference counting is not captured, and two descriptors with equal contents are one.
- Case folding of names: SDL names are folded for ASCII letters only, which is what identifiers consist of; the vault takes the folding of player names and case-insensitive fields as a parameter.
- Recursion depth: reading creatables takes a depth bound, because decompression can make the input grow; running out is an error of its own, and `Creatable.DepthIrrelevant` says that a larger bound changes no other answer.
- zlib, the clock and the parsing of floating-point literals are parameters; where it matters, zlib is assumed to be lossless and float parsing never to give a NaN.
- Which error a rejected text is reported with is that of the grammar's functions; only that it is rejected is said of the text itself.
- SdlRoundTrip.BlobRoundTrip: stated for states without timestamps. The writer sets a flag and writes no time, so that the reader takes the bytes of what follows for it; `SdlStamps.PlainBlobIff` says for states without nested ones that this never comes back.
- SdlStamps.PlainBlobIff: not for nested states, for creatables, and for written values that the reader starts from anyway (an empty variable of variable length, a default that is a NaN); there a reader that has gone astray could get the state out of fewer bytes, so that the number of bytes decides nothing.
- SdlBuild.FromDefaults: the stack is a bound on the depth of nested states; running out of it is an error of its own, and `SdlBuild.BuildsDefault` says which depth is enough. The memory that a large count asks for is not modelled.
- `debug_assert` of the source is ignored, and a `panic!` or `unreachable!` is an error value.
- I/O failures of the underlying streams, and the memory that a length read from a stream asks for.
- Writer.into_inner and the flush when a writer is dropped: a session ends with an explicit flush.
- VaultDb.CreateNode: when the 32-bit id counter would overflow, the model refuses with an error of its own, where the source panics or wraps.
- VaultWorld.Step: nodes and refs that clients issue themselves are not among the events; the source adds them unchecked, and no graph property would hold with them.
- VaultMemory.Worker.FetchPlayer: replies to the client and the request for player zero, which changes nothing, are not modelled.
- Game servers, accounts, passwords and API tokens of the vault; broadcasts to subscribers.
- Sockets, tasks and channels, the HTTP API, configuration, logging and the command-line tools.
- The auth, file and gate-keeper message enums, which are flat field lists.
- Manifests, Python compilation and path handling, which are mostly calls to the operating system.
- RC4, MD5, SHA-0 and SHA-1, big integers and random numbers.
