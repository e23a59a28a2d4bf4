# Hedge core, modelled in Dafny

Hedge is a small Vulkan game engine with an editor and two build-time
Python scripts. Most of it is plumbing around Vulkan, GLFW and Dear ImGui.
This project models the deterministic logic inside that plumbing and proves
what that logic promises. There is one module per component:

- `ShaderHeader` (`shader_header.dfy`): the shader-header generator in
  `tools/GenerateShaderHeader.py`. It covers the byte-array encoder with its
  16-per-row layout and the dropped last character, the symbol name, the
  vertex/fragment classification, the compiler profile, the stale-SPIR-V
  deletion and the header assembly. The main result is a decode(encode) round
  trip.
- `Crc32` (`crc32.dfy`): the compile-time CRC-32 of `engine/util/Utils.h`,
  over `bv32`. This is the reflected CRC-32 of IEEE 802.3 (clause 3.2.9).
  The table generator and the checksum loop are methods, proved against fold
  specifications. A lemma shows that the table-driven step equals eight
  single-bit steps.
- `VkCheck` (`vk_check.dfy`): `to_string(VkResult)` and the `VK_CHECK` macro.
- `Paths` (`paths.dfy`): `GetFileName`/`GetFileDir` in `size_t` arithmetic,
  including the `npos + 1` wrap to 0.
- `UtilMath` (`util_math.dfy`): the index-arithmetic vector and matrix
  templates, as methods over `array<real>`, and the AABB–sphere test.
- `Input` (`input.dfy`): the input payloads, the command-generator UID
  counter, the key-combination test, and the generator registry with its
  command loop.
- `Pong` (`pong.dfy`): the paddle command generator of the Pong example.
- `Event` (`event.dfy`): events and the listener map.
- `Asset` (`asset.dfy`): asset reference counting.
- `GpuRsrc` (`gpu_rsrc.dfy`): GPU buffer/image reference counting,
  image-layout tracking and the queue-family selection loop.
- `Serializer` (`serializer.dfy`): the class registry.
- `Pipeline` (`pipeline.dfy`): the graphics-pipeline default filling and the
  destructor's ownership rule.
- `Swapchain` (`swapchain.dfy`): the swapchain selection rules, the
  frame-index ring, the resize and present handling, and the image views.
- `Editor` (`editor.dfy`): the generated CMake text, the build commands and
  the project/scene bookkeeping of the editor.
- `GatherHeaders` (`gather_headers.dfy`): the header-staging filter and the
  destination paths of `tools/GatherHeaderFiles.py`.
- `Wrappers` (`wrappers.dfy`): `Option` and `Result`.

Objects whose fields the engine updates in place are classes whose methods
state their whole new state. Loops are methods proved against recursive
specification functions, and the properties are lemmas about those
functions. Foreign values (Vulkan handles, function pointers, `std::hash`,
file contents) are parameters or opaque values. File-system and process
effects are returned as values: argument vectors, removed paths and copy
actions.

Where the documentation of the system and its code disagree, the model
follows the code:

- The shader profiles are `vs_6_0`/`ps_6_0`.
- The stage tokens are `Vert`/`Frag`, with capital letters.
- `HGpuRsrcManager.h` and `HSerializer.h` declare APIs that differ from
  their `.cpp` files (for example `RegisterClass` rather than
  `RegisterAClass`). The `.cpp` behaviour is modelled.

## Model

The table lists members whose contracts state something. Some recursive
specification functions carry no contract of their own and are described by
the lemmas and methods about them instead:
- `ShaderHeader.CompileRuns` by `CompileShadersInFolder`, `CompileRunsExactlyClassified` and `SpirvOutputsOfClassified`.
- `ShaderHeader.Kept` and `ShaderHeader.Removed` by `DeleteSpirvInFolder`, `RemovedAreSpirv`, `DeletionSplitsListing` and `RegeneratedSpirvIsFresh`.
- `ShaderHeader.Block` and `ShaderHeader.HeaderText` by `GenerateHeader`, `FolderBlocksSnoc`, `AllBlocksSnoc` and `OnlySpirvEmbedded`.
- `Input.CommandGenerator.CheckCmdTypeUID` by `CheckCmdTypeUIDSelectsOne`.

| member | source | states |
|---|---|---|
| ShaderHeader.HexDigit | tools/GenerateShaderHeader.py:43 | a nibble becomes one lower-case hexadecimal digit |
| ShaderHeader.HexPair | tools/GenerateShaderHeader.py:43 | a byte becomes exactly two lower-case hexadecimal digits |
| ShaderHeader.Hex | tools/GenerateShaderHeader.py:43 | `bytes.hex()` is twice as long as its input |
| ShaderHeader.HexAt | tools/GenerateShaderHeader.py:43 | characters `2i` and `2i+1` of the hex text are the digits of byte `i`, in input order |
| ShaderHeader.DigitValue | tools/GenerateShaderHeader.py:43 | reading a lower-case digit gives back the nibble that produced it |
| ShaderHeader.DigitValueOfHexDigit | tools/GenerateShaderHeader.py:43 | digit encoding and reading are inverse |
| ShaderHeader.GenerateShaderFormatedArray | tools/GenerateShaderHeader.py:8-20 | the encoder loop produces the declaration, one element per byte, drops the last character and closes with `};\n` |
| ShaderHeader.ElementStep | tools/GenerateShaderHeader.py:10-17 | each iteration extends the accumulated text by exactly the next byte's element |
| ShaderHeader.LiteralOfByte | tools/GenerateShaderHeader.py:14 | each literal is ` 0x`, the byte's two lower-case digits and a comma |
| ShaderHeader.RowStart | tools/GenerateShaderHeader.py:12-13 | the literal at every index that is a multiple of 16 opens a row with the 7-space indent |
| ShaderHeader.RowExtend | tools/GenerateShaderHeader.py:14-16 | each further literal extends the current row, and the sixteenth ends it with a newline |
| ShaderHeader.ElementsWithinRow | tools/GenerateShaderHeader.py:10-17 | the elements of a row of `m` literals are that row |
| ShaderHeader.ElementsAreFullRows | tools/GenerateShaderHeader.py:10-17 | the elements of `16k` bytes are exactly `k` full rows |
| ShaderHeader.ElementsAreRows | tools/GenerateShaderHeader.py:10-17 | the elements of `16k+m` bytes are `k` full rows and then one partial row of `m` literals |
| ShaderHeader.LastCharacterDropped | tools/GenerateShaderHeader.py:18-19 | for a non-empty input, only the last element loses its final character: the comma when `n mod 16 != 0`, the newline otherwise |
| ShaderHeader.FormattedNonEmpty | tools/GenerateShaderHeader.py:18-19 | a non-empty encoding is the declaration, all elements but the last, the cut last element and `};\n` |
| ShaderHeader.EmptyArray | tools/GenerateShaderHeader.py:9-19 | with no bytes the declaration's newline is dropped and `};` closes on the same line |
| ShaderHeader.ElementCut | tools/GenerateShaderHeader.py:12-18 | the cut element ends in the comma for a full row and without it otherwise |
| ShaderHeader.SkipNoZero | tools/GenerateShaderHeader.py:13-16 | indents and newlines contribute no literal to the read-back |
| ShaderHeader.ReadOneLiteral | tools/GenerateShaderHeader.py:14 | `0x` and two digits read back as the encoded byte |
| ShaderHeader.ScanLiteral | tools/GenerateShaderHeader.py:14 | a literal between separators reads back as exactly its byte |
| ShaderHeader.ElementOfByte | tools/GenerateShaderHeader.py:11-16 | an element is the row's indent, the literal and the row's newline |
| ShaderHeader.ScanElement | tools/GenerateShaderHeader.py:11-16 | one element reads back as its byte |
| ShaderHeader.ScanElements | tools/GenerateShaderHeader.py:10-17 | the first `n` elements read back as the first `n` bytes, in order |
| ShaderHeader.DropLastOfConcat | tools/GenerateShaderHeader.py:18 | `[:-1]` of a concatenation cuts only its last part |
| ShaderHeader.ScanCutElement | tools/GenerateShaderHeader.py:18 | the cut last element still reads back as its byte |
| ShaderHeader.RoundTripEmpty | tools/GenerateShaderHeader.py:8-20 | the encoding of no bytes holds no literal |
| ShaderHeader.FormattedTail | tools/GenerateShaderHeader.py:9-19 | after the opening brace come the newline, the elements and the cut last element |
| ShaderHeader.DeclarationEndsInNewline | tools/GenerateShaderHeader.py:9 | the declaration line ends in a newline |
| ShaderHeader.ScanBody | tools/GenerateShaderHeader.py:10-19 | the text after the brace reads back as all of the bytes |
| ShaderHeader.ScanLastElement | tools/GenerateShaderHeader.py:18-19 | the cut last element, closed by `};`, reads back as the last byte |
| ShaderHeader.RoundTrip | tools/GenerateShaderHeader.py:8-20 | reading the literals of an encoded array gives back exactly the original bytes |
| ShaderHeader.FirstField | tools/GenerateShaderHeader.py:44 | `rsplit(".")[0]` is the text before the first dot, since every dot splits |
| ShaderHeader.SymbolName | tools/GenerateShaderHeader.py:44 | the array name is the file name up to its first dot, followed by `Script`; for `skybox_vert.hlsl.spv` that is `skybox_vertScript` |
| ShaderHeader.ContainsAt | tools/GenerateShaderHeader.py:71-73 | Python's `in` holds when the text occurs at some offset |
| ShaderHeader.ContainsWitness | tools/GenerateShaderHeader.py:71-73 | when `in` holds, there is an offset at which the text occurs |
| ShaderHeader.Classify | tools/GenerateShaderHeader.py:70-74 | a vertex shader iff the name holds `Vert` and `hlsl`; otherwise a fragment shader iff it holds `Frag` and `hlsl`; otherwise skipped |
| ShaderHeader.CompileShaderArgs | tools/GenerateShaderHeader.py:52-56 | the profile is `ps_6_0` exactly for `Frag` and `vs_6_0` exactly for `Vert`; the output is the source path plus `.spv` |
| ShaderHeader.CompileShadersInFolder | tools/GenerateShaderHeader.py:67-74 | the compile loop issues the runs of the listing, in order |
| ShaderHeader.CompileRunsExactlyClassified | tools/GenerateShaderHeader.py:67-74 | every run compiles a listed, classified file under its own stage, and every such file is compiled |
| ShaderHeader.SpirvOutputsOfClassified | tools/GenerateShaderHeader.py:56-74 | the SPIR-V files produced are exactly the classified names plus `.spv` |
| ShaderHeader.DeleteSpirvInFolder | tools/GenerateShaderHeader.py:59-64 | the deletion loop removes the listed paths whose name holds `.spv`, in order |
| ShaderHeader.JoinInjective | tools/GenerateShaderHeader.py:64 | distinct names give distinct joined paths |
| ShaderHeader.RemovedAreSpirv | tools/GenerateShaderHeader.py:62-64 | only listed files whose name holds `.spv` are removed |
| ShaderHeader.DeletionSplitsListing | tools/GenerateShaderHeader.py:62-64 | a listed file is removed iff its name holds `.spv`, and kept iff it does not |
| ShaderHeader.SpvSuffix | tools/GenerateShaderHeader.py:56-63 | every compiler output name holds `.spv` |
| ShaderHeader.RegeneratedSpirvIsFresh | tools/GenerateShaderHeader.py:84-85 | after deletion and compilation, every SPIR-V file comes from a classified source of this run, and every classified source has one |
| ShaderHeader.FolderBlocksSnoc | tools/GenerateShaderHeader.py:39-46 | each listed file adds its block after those of the files before it |
| ShaderHeader.AllBlocksSnoc | tools/GenerateShaderHeader.py:36-46 | each folder adds its blocks after those of the folders before it |
| ShaderHeader.GenerateHeader | tools/GenerateShaderHeader.py:31-49 | the header is the preamble, then for each `.spv` file its array and a newline in listing order, then a lone `}` |
| ShaderHeader.GeneratePreShaderArrayStr | tools/GenerateShaderHeader.py:23-28 | the preamble is the fixed four-line text |
| ShaderHeader.OnlySpirvEmbedded | tools/GenerateShaderHeader.py:40 | a file whose name lacks `.spv` adds nothing to the header |
| Crc32.TableEntry | engine/util/Utils.h:61-70 | entry `b` of the table is eight single-bit reflected steps from `b` |
| Crc32.Index | engine/util/Utils.h:91 | the index `(crc ^ c) & 0xFF` is always below 256 |
| Crc32.NulIndex | engine/util/Utils.h:90 | the loop stops at the first NUL character, and no earlier |
| Crc32.GenCrc32Table | engine/util/Utils.h:54-73 | the nested loops fill all 256 entries, each with eight steps of `(crc >> 1) ^ (0xEDB88320 & -(crc & 1))` |
| Crc32.TableStep | engine/util/Utils.h:91 | one iteration of the checksum loop is the table-driven step |
| Crc32.Crc32 | engine/util/Utils.h:87-95 | the loop starts from all ones, folds every character before the NUL, and returns the complement |
| Crc32.IndexedByWords | engine/util/Utils.h:69-76 | a table filled by byte position is the table that the checksum indexes |
| Crc32.TableCheckValues | engine/util/Utils.h:77-82 | entry 0 is 0, entry 1 is 0x77073096 and entry 255 is 0x2D02EF8D, as the `static_assert` demands |
| Crc32.EmptyStringHashesToZero | engine/util/Utils.h:88-94 | the empty string hashes to 0 |
| Crc32.FoldConcat | engine/util/Utils.h:88-92 | the loop is a left fold: feeding `s + t` is feeding `t` from the state that `s` leaves |
| Crc32.NulOfTerminated | engine/util/Utils.h:90 | the first NUL of `s + [0] + t`, for a NUL-free `s`, is at `|s|` |
| Crc32.NulEndsTheString | engine/util/Utils.h:90 | characters after the terminating NUL do not affect the checksum |
| Crc32.CharPromotion | engine/util/Utils.h:91 | a signed `char` keeps its byte in the low eight bits, and only bytes from 0x80 up are sign-extended |
| Crc32.MaskDropsSignExtension | engine/util/Utils.h:91 | the `& 0xFF` removes the sign extension, so each character contributes only its own eight bits |
| Crc32.TableStepIsEightBitSteps | engine/util/Utils.h:64-91 | one table-driven step equals eight single-bit reflected steps on the register with the byte xor-ed in |
| Crc32.Crc32IsBitwiseCrc32 | engine/util/Utils.h:54-95 | the table-driven checksum equals the bitwise reference CRC-32 on every string |
| Crc32.TableFoldIsBitwiseFold | engine/util/Utils.h:88-92 | table-driven and bitwise folds agree from every starting register |
| Crc32.StepOfByte | engine/util/Utils.h:91 | the table-driven step depends only on the byte, not on its sign extension |
| Crc32.SplitIterate | engine/util/Utils.h:64-91 | eight steps from `crc ^ c` split into the table entry of its low byte, xor-ed with the upper bits shifted down |
| Crc32.IterateAdd | engine/util/Utils.h:64 | `m + n` steps are `m` steps followed by `n` steps |
| Crc32.SplitEightSteps | engine/util/Utils.h:64-91 | eight steps are linear, and the bits above the low byte only shift through them |
| VkCheck.ToString | engine/util/Utils.h:105-148 | a code without a case is named "UNKNOWN_ERROR" by the `default` label |
| VkCheck.ListedCodesAreNamed | engine/util/Utils.h:107-146 | a code with a case is never named "UNKNOWN_ERROR", so that name means exactly that the code has no case |
| VkCheck.Decimal | engine/util/Utils.h:150 | `__LINE__` is written as a non-empty string of decimal digits |
| VkCheck.Check | engine/util/Utils.h:150-155 | execution continues iff the build is release or the result is zero; otherwise the process exits with status 1 |
| VkCheck.SuccessIsUnknown | engine/util/Utils.h:105-148 | `VK_SUCCESS` has no case and is named "UNKNOWN_ERROR" |
| VkCheck.ReportEndsWithName | engine/util/Utils.h:150 | a failing check's report ends with the code's name and `.\n` |
| VkCheck.SuboptimalStops | engine/util/Utils.h:132-150 | a positive status such as `VK_SUBOPTIMAL_KHR` also stops the program, and is named |
| Paths.RFind | engine/util/Utils.cpp:13-20 | `rfind` returns `npos` iff there is no backslash, else the index of the last one |
| Paths.Substr | engine/util/Utils.cpp:14-21 | `substr(pos, count)` is the slice from `pos` of length `min(count, size - pos)` |
| Paths.SplitAtLastSeparator | engine/util/Utils.cpp:10-22 | with the last backslash at `k`, the name is `p[k+1..]` and the directory `p[..k]` |
| Paths.DirAndNameRebuildPath | engine/util/Utils.cpp:10-22 | directory, backslash and name put back together give the path |
| Paths.PartsOfPath | engine/util/Utils.cpp:13-21 | the name holds no backslash and is a suffix of the path; the directory is a prefix |
| Paths.NoSeparatorKeepsPath | engine/util/Utils.cpp:13-21 | without a backslash, `npos + 1` wraps to 0 and both functions return the whole path |
| Paths.ForwardSlashIsNotSeparator | engine/util/Utils.cpp:13-20 | a forward slash is not a separator and stays inside the name |
| UtilMath.Idx | engine/util/UtilMath.h:116-117 | the row-major position of cell (r, c) lies inside the `dim`-square block |
| UtilMath.OffsetIsProduct | engine/util/UtilMath.h:116 | the row offset is `r * dim` |
| UtilMath.OffsetGrows | engine/util/UtilMath.h:92 | a later row starts at least one whole row further on |
| UtilMath.RowMajor | engine/util/UtilMath.h:116-117 | `r * dim + c`, as the templates compute it, is the position of cell (r, c) |
| UtilMath.IdxInjective | engine/util/UtilMath.h:116-117 | distinct cells have distinct positions |
| UtilMath.CellOf | engine/util/UtilMath.h:110-126 | every position below `dim * dim` is the cell `(k / dim, k % dim)` |
| UtilMath.RowColOfIdx | engine/util/UtilMath.h:116-117 | a cell's position gives back its row and column by division and remainder |
| UtilMath.MatrixMul4x4 | engine/util/UtilMath.h:11-25 | `resMat[4r+c]` becomes the sum over `k < 4` of `mat1[4r+k] * mat2[4k+c]`; entries from 16 on are untouched |
| UtilMath.CellsOfFour | engine/util/UtilMath.h:18 | the cells of a 4x4 matrix lie at `4 * r + c` |
| UtilMath.EntryOfFour | engine/util/UtilMath.h:19-22 | the written-out four-term sum is the product entry |
| UtilMath.DotProduct | engine/util/UtilMath.h:64-73 | the result is the sum of the first `dim` pairwise products |
| UtilMath.ScalarMul | engine/util/UtilMath.h:75-82 | exactly the first `dim` entries are scaled in place, and the rest are unchanged |
| UtilMath.Scaled | engine/util/UtilMath.h:78-81 | entries below `n` are multiplied by the scalar, and the others kept |
| UtilMath.MatMulVec | engine/util/UtilMath.h:84-96 | `res[r]` becomes the sum over `c` of `mat[r*dim+c] * vec[c]`; entries from `dim` on are untouched |
| UtilMath.VecAdd | engine/util/UtilMath.h:98-105 | `res[i] = vec1[i] + vec2[i]` for `i < dim` only, even when `res` is one of the inputs |
| UtilMath.Added | engine/util/UtilMath.h:101-104 | entries below `n` are the sums, and the others kept |
| UtilMath.Cross | engine/util/UtilMath.h:59-61 | the cross product has three components |
| UtilMath.CrossProductVec3 | engine/util/UtilMath.h:56-62 | the first three entries become the standard components of `vec1 x vec2`; the rest are kept |
| UtilMath.Mirror | engine/util/UtilMath.h:116-117 | the mirror of a cell across the diagonal lies inside the block |
| UtilMath.Transposed | engine/util/UtilMath.h:107-126 | the transposed sequence has the same length |
| UtilMath.MatTranspose | engine/util/UtilMath.h:109-126 | in place, `mat[c*dim+r]` becomes the old `mat[r*dim+c]`, and entries from `dim*dim` on are untouched |
| UtilMath.ExchangeCells | engine/util/UtilMath.h:116-123 | one inner iteration exchanges a cell with its mirror and changes nothing else |
| UtilMath.ExchangeAdvances | engine/util/UtilMath.h:114-124 | an exchange extends the partly transposed region by one cell |
| UtilMath.RowFinished | engine/util/UtilMath.h:112-125 | a finished row moves the pass on to the next row |
| UtilMath.TransposedFromCells | engine/util/UtilMath.h:110-126 | when every cell has been exchanged, the matrix is the transpose |
| UtilMath.TransposeTwice | engine/util/UtilMath.h:107-126 | transposing twice restores the matrix, so row-major and column-major convert both ways |
| UtilMath.TransposeKeepsDiagonal | engine/util/UtilMath.h:114 | the diagonal is not moved |
| UtilMath.DotSymmetric | engine/util/UtilMath.h:64-73 | the dot product is symmetric |
| UtilMath.DotOfScaled | engine/util/UtilMath.h:64-82 | scaling and then taking the dot product equals scaling the dot product |
| UtilMath.DotOfAdded | engine/util/UtilMath.h:64-105 | the dot product distributes over `VecAdd` |
| UtilMath.DotPrefixOnly | engine/util/UtilMath.h:68-71 | the dot product reads only the first `dim` entries |
| UtilMath.RowTimesIsDot | engine/util/UtilMath.h:64-96 | each entry `MatMulVec` writes is the dot product of that matrix row with the vector |
| UtilMath.IdentityTimes | engine/util/UtilMath.h:11-25 | multiplying by the identity on the left keeps the matrix |
| UtilMath.CrossAntiCommutes | engine/util/UtilMath.h:56-62 | `cross(a, b) = -cross(b, a)` |
| UtilMath.CrossOrthogonalToFirst | engine/util/UtilMath.h:56-73 | the cross product is orthogonal to its first factor |
| UtilMath.CrossOrthogonalToSecond | engine/util/UtilMath.h:56-73 | the cross product is orthogonal to its second factor |
| UtilMath.NearPoint | engine/util/UtilMath.cpp:147-160 | on each axis the point is the box minimum if the centre is below it, the maximum if above, else the centre |
| UtilMath.SqDist | engine/util/UtilMath.cpp:144-161 | the accumulated squared distance is never negative |
| UtilMath.AABBCubeSphereIntersection | engine/util/UtilMath.cpp:142-167 | `nearPoint` becomes the clamped centre; the result is true iff the squared distance to it is at most `radius²` |
| UtilMath.SqDistFrame | engine/util/UtilMath.cpp:145 | the distance over three axes reads only the first three coordinates |
| UtilMath.NearPointInBox | engine/util/UtilMath.cpp:145-161 | for a non-empty box, the picked point lies in the box |
| UtilMath.CenterInsideIsNearest | engine/util/UtilMath.cpp:157-166 | a centre inside the box is its own near point, at distance 0, so it always intersects |
| UtilMath.SqDistToSelf | engine/util/UtilMath.cpp:157-160 | the distance between equal coordinates is 0 |
| UtilMath.NearCoordIsNearest | engine/util/UtilMath.cpp:147-160 | on each axis, clamping picks the coordinate nearest the centre |
| UtilMath.NearPointIsNearest | engine/util/UtilMath.cpp:145-161 | the picked point is at least as close to the centre as every point of the box |
| UtilMath.IntersectionIsExact | engine/util/UtilMath.cpp:142-167 | the test succeeds iff some point of the box lies within the radius |
| Input.ImGuiInput.constructor | engine/input/InputHandler.h:25-27 | a new input has its kind and empty payloads |
| Input.ImGuiInput.AddInt | engine/input/InputHandler.h:31 | appends to the integer payload, and keeps the kind and the float payload |
| Input.ImGuiInput.AddFloat | engine/input/InputHandler.h:32 | appends to the float payload, and keeps the kind and the integer payload |
| Input.UidCounter.constructor | engine/input/InputHandler.cpp:6 | the static counter starts at 0 |
| Input.UidAfter | engine/input/InputHandler.h:57-74 | the counter stays a `uint32_t` |
| Input.CommandGenerator.constructor | engine/input/InputHandler.h:57-76 | the generator takes the counter's value as its UID, the counter is incremented with wrap-around, and the generator starts in AND mode with no keys |
| Input.CommandGenerator.SetKeyCombination | engine/input/InputHandler.h:64-65 | `GetKeyCombination` then returns the new set; the UID and the mode are kept |
| Input.CommandGenerator.CheckKeyCombination | engine/input/InputHandler.cpp:136-161 | AND mode: true iff every key is held; OR mode: true iff some key is held |
| Input.FirstOfKind | engine/input/InputHandler.cpp:168-174 | the first position with the kind, and no earlier position has it |
| Input.FindQualifiedInput | engine/input/InputHandler.cpp:164-176 | returns the first input of the kind, else an `INVALID` input with empty payloads |
| Input.KindsOf | engine/input/InputHandler.cpp:42-51 | a kind is in the set iff some input has it |
| Input.ImGuiInputHandler.constructor | engine/input/InputHandler.cpp:9-11 | a new handler has no generators |
| Input.ImGuiInputHandler.AddOrUpdateCommandGenerator | engine/input/InputHandler.cpp:20-39 | null changes nothing; a registered generator with an equal key combination is removed and the new one is not added; otherwise the new one is added and nothing else changes |
| Input.ImGuiInputHandler.RemoveCommandGenerator | engine/input/InputHandler.h:88-94 | the generator is unregistered if present, and the others are unchanged |
| Input.ImGuiInputHandler.GenerateInputEnum | engine/input/InputHandler.cpp:42-51 | returns exactly the set of the inputs' kinds |
| Input.ImGuiInputHandler.HandleInput | engine/input/InputHandler.cpp:121-130 | one command per registered generator whose combination holds, each built from the whole frame input list with that generator's UID |
| Input.FirstIsUnique | engine/input/InputHandler.cpp:168-174 | the first match found is the one `FirstOfKind` names |
| Input.FirstOfKindMissing | engine/input/InputHandler.cpp:175 | the `INVALID` fallback happens iff no input has the kind |
| Input.EmptyCombination | engine/input/InputHandler.cpp:141-159 | an empty combination holds in AND mode and never in OR mode |
| Input.AndImpliesOr | engine/input/InputHandler.cpp:139-160 | a non-empty combination that holds in AND mode also holds in OR mode |
| Input.HoldsIsMonotone | engine/input/InputHandler.cpp:139-160 | holding more keys never stops a combination from matching |
| Input.CounterAfterFromZero | engine/input/InputHandler.h:57 | from the counter's initial 0, `k` constructor steps leave `k` modulo 2^32 |
| Input.RunUidsFromZero | engine/input/InputHandler.h:57 | the `i`-th generator constructed in a run gets UID `i` modulo 2^32 |
| Input.UidsAreDistinct | engine/input/InputHandler.h:57 | in a run of at most 2^32 constructions, UIDs increase in construction order, so they are pairwise distinct |
| Input.CheckCmdTypeUIDSelectsOne | engine/input/InputHandler.h:67 | among the generators of one run of at most 2^32, `CheckCmdTypeUID` of a generator's UID holds for that generator and no other |
| Input.UidsWrap | engine/input/InputHandler.h:57-74 | in a run of more than 2^32 constructions the counter wraps, and the generator after the 2^32-th gets the first one's UID |
| Pong.NewBoardMoveCommandGenerator | ExampleGames/Pong/code/MainGameEntity.h:31-36 | a fresh UID from the counter, the combination {`PRESS_UP`, `PRESS_DOWN`}, OR mode |
| Pong.BoardMoveCommand | ExampleGames/Pong/code/MainGameEntity.h:38-54 | as written: the command carries the generator's UID and no floats; its one int is 1 iff the first input is `PRESS_UP`, else -1 |
| Pong.IntendedBoardMoveCommand | ExampleGames/Pong/code/MainGameEntity.h:38-54 | corrected: the int is 1 iff `PRESS_UP` is among the inputs, else -1 |
| Pong.FiresOnArrows | ExampleGames/Pong/code/MainGameEntity.h:33-35 | the generator fires iff an arrow key is held, so the input list is non-empty whenever the command is built |
| Pong.UpWithWMovesDown | ExampleGames/Pong/code/MainGameEntity.h:41 | with W and the up arrow held, the generator fires and the as-written command moves down while the intended one moves up |
| Pong.IntendedFollowsTheArrow | ExampleGames/Pong/code/MainGameEntity.h:40-48 | with a single arrow held, whatever else is held, the intended command moves toward that arrow |
| Pong.AgreeWhenArrowFirst | ExampleGames/Pong/code/MainGameEntity.h:40-52 | the two commands agree whenever the first input is an arrow key |
| Event.HEvent.constructor | engine/core/HEvent.cpp:8-16 | a new event has the hash of its type name, a copy of its arguments, and is not handled |
| Event.Registered | engine/core/HEvent.cpp:26-36 | the entity is appended at the end of the type's list, creating a list when none existed; other types' lists are unchanged |
| Event.HEventManager.constructor | engine/core/HEvent.h:40-42 | a new manager has no listeners |
| Event.HEventManager.RegisterListener | engine/core/HEvent.cpp:19-37 | the map becomes the registration of the entity under the type's hash |
| Event.HEventManager.SendEvent | engine/core/HEvent.cpp:40-52 | the entities notified are exactly the type's listeners, in registration order; a type with no list notifies nobody |
| Event.NotifiedInRegistrationOrder | engine/core/HEvent.cpp:29-50 | after any registrations, the listeners come in registration order after the earlier ones |
| Event.DuplicatesAreKept | engine/core/HEvent.cpp:29-35 | registering the same entity twice adds it twice; there is no de-duplication |
| Event.OtherTypesUnaffected | engine/core/HEvent.cpp:19-37 | registrations under one type never change another type's listeners |
| Asset.Guid | engine/core/HAssetRsrcManager.cpp:16-35 | a GUID is a CRC-32, so it lies below 2^32 |
| Asset.AfterLoad | engine/core/HAssetRsrcManager.cpp:35-44 | as written: a present entry gains one reference and nothing else changes; an absent GUID is not inserted |
| Asset.AfterIntendedLoad | engine/core/HAssetRsrcManager.cpp:40-44 | corrected: an absent GUID is inserted with one reference; a present one is treated as written |
| Asset.AfterRelease | engine/core/HAssetRsrcManager.cpp:67-80 | an absent GUID changes nothing, and other entries are unchanged |
| Asset.HStaticMeshAsset.constructor | engine/core/HAssetRsrcManager.h:56 | the asset holds its meshes |
| Asset.HStaticMeshAsset.GetSectionCounts | engine/core/HAssetRsrcManager.h:62 | the number of meshes |
| Asset.HStaticMeshAsset.GetIdxCnt | engine/core/HAssetRsrcManager.h:67 | the index count of mesh `i` |
| Asset.HStaticMeshAsset.GetVertCnt | engine/core/HAssetRsrcManager.h:68 | the number of whole 12-float vertices, by integer division |
| Asset.HAssetRsrcManager.constructor | engine/core/HAssetRsrcManager.cpp:11-23 | the map holds exactly the built-in cube, keyed by the CRC-32 of its name, with one reference |
| Asset.HAssetRsrcManager.UpdateAssetFolderPath | engine/core/HAssetRsrcManager.h:149-151 | `GetAssetFolderPath` then returns the root followed by `\assets\` |
| Asset.HAssetRsrcManager.LoadAsset | engine/core/HAssetRsrcManager.cpp:32-47 | as written: returns the CRC-32 of the path and changes the map as `AfterLoad` says |
| Asset.HAssetRsrcManager.LoadAssetIntended | engine/core/HAssetRsrcManager.cpp:32-47 | corrected: returns the CRC-32 of the path and registers an absent asset with one reference |
| Asset.HAssetRsrcManager.GetAssetPtr | engine/core/HAssetRsrcManager.cpp:50-64 | true with the stored asset iff the GUID is registered, else false with null; no count changes |
| Asset.HAssetRsrcManager.ReleaseAsset | engine/core/HAssetRsrcManager.cpp:67-80 | drops one reference and erases the entry when the count reaches 0 |
| Asset.HAssetRsrcManager.CleanAllAssets | engine/core/HAssetRsrcManager.cpp:83-90 | the map is left empty |
| Asset.ConstructedIsPositive | engine/core/HAssetRsrcManager.cpp:19-21 | the constructed registry satisfies the invariant that every count is at least 1 |
| Asset.LoadKeepsCountsPositive | engine/core/HAssetRsrcManager.cpp:36-39 | loading keeps every count positive unless a count of 2^32 - 1 wraps to 0 |
| Asset.ReleaseKeepsCountsPositive | engine/core/HAssetRsrcManager.cpp:70-78 | releasing keeps every count positive |
| Asset.ReleaseUnloadsAtZero | engine/core/HAssetRsrcManager.cpp:70-78 | an asset stays loaded iff it had more than one reference, and then it has one fewer |
| Asset.LoadNeverInserts | engine/core/HAssetRsrcManager.cpp:40-44 | as written, loading an unregistered GUID leaves it unregistered |
| Asset.FreshLoadFails | engine/core/HAssetRsrcManager.cpp:11-44 | on a fresh registry, loading any path other than the cube leaves it unregistered |
| Asset.IntendedLoadRegisters | engine/core/HAssetRsrcManager.cpp:40-44 | the corrected load registers the asset and keeps every count positive |
| Asset.LoadThenReleaseRestores | engine/core/HAssetRsrcManager.h:153-154 | with the corrected load, a load followed by a release restores the registry |
| GpuRsrc.HGpuBuffer.constructor | engine/core/HGpuRsrcManager.cpp:452-453 | `new` followed by `memset` zeroes the byte count and the descriptor fields |
| GpuRsrc.HGpuImg.constructor | engine/core/HGpuRsrcManager.cpp:677-678 | `new` followed by `memset` leaves the tracked layout `UNDEFINED` (0) |
| GpuRsrc.DescriptorTypeOf | engine/core/HGpuRsrcManager.cpp:453-471 | `UNIFORM_BUFFER` iff the usage is exactly the uniform bit, `STORAGE_BUFFER` iff exactly the storage bit, else the zero left by `memset` |
| GpuRsrc.AfterRefer | engine/core/HGpuRsrcManager.cpp:155-167 | a registered resource gains one reference; an unregistered one changes nothing; other entries are unchanged |
| GpuRsrc.AfterDerefer | engine/core/HGpuRsrcManager.cpp:170-185 | an unregistered resource changes nothing; a count above 1 drops by one; a count of 1 removes the entry; no other entry changes |
| GpuRsrc.HGpuRsrcManager.constructor | engine/core/HGpuRsrcManager.cpp:95-113 | a new manager has an empty registry |
| GpuRsrc.HGpuRsrcManager.CreateGpuBuffer | engine/core/HGpuRsrcManager.cpp:431-480 | a new buffer with `byteCnt` = bytesNum, descriptor offset 0, range bytesNum and the usage's descriptor type, registered with one reference as a buffer |
| GpuRsrc.HGpuRsrcManager.CreateGpuImage | engine/core/HGpuRsrcManager.cpp:666-734 | a new image in layout `UNDEFINED`, registered with one reference as an image |
| GpuRsrc.HGpuRsrcManager.ReferGpuBufferImg | engine/core/HGpuRsrcManager.cpp:155-167 | the registry becomes `AfterRefer`; `assert(1, ...)` never fires, so an unregistered resource is ignored |
| GpuRsrc.HGpuRsrcManager.DereferGpuBuffer | engine/core/HGpuRsrcManager.cpp:170-185 | one reference fewer; the entry is removed at 0; an unregistered buffer is ignored |
| GpuRsrc.HGpuRsrcManager.DereferGpuImg | engine/core/HGpuRsrcManager.cpp:511-526 | one reference fewer; the entry is removed at 0; an unregistered image is ignored |
| GpuRsrc.HGpuRsrcManager.DestroyGpuBufferResource | engine/core/HGpuRsrcManager.cpp:188-209 | a registered buffer is removed; null and unregistered buffers change nothing |
| GpuRsrc.HGpuRsrcManager.DestroyGpuImgResource | engine/core/HGpuRsrcManager.cpp:529-555 | a registered image is removed; null and unregistered images change nothing |
| GpuRsrc.HGpuRsrcManager.TransImageLayout | engine/core/HGpuRsrcManager.cpp:558-608 | no barrier when the image is already in the target layout; otherwise one barrier from the old layout, and the tracked layout becomes the target |
| GpuRsrc.LastWith | engine/core/HGpuRsrcManager.cpp:349-378 | the last index with the capability among the first `n` families, or none when no family has it |
| GpuRsrc.Examined | engine/core/HGpuRsrcManager.cpp:349-378 | the loop examines at least the families it started from and at most all of them |
| GpuRsrc.SelectQueueFamilies | engine/core/HGpuRsrcManager.cpp:349-378 | success iff the examined families offer all three capabilities; each chosen index is the last examined family with that capability |
| GpuRsrc.TrackStep | engine/core/HGpuRsrcManager.cpp:355-375 | one loop iteration updates a capability's found flag and last index |
| GpuRsrc.Insert | engine/core/HGpuRsrcManager.cpp:385-397 | `std::set::insert` keeps the listing ascending, adds the value, and grows it only for a new value |
| GpuRsrc.UniqueQueueFamilies | engine/core/HGpuRsrcManager.cpp:385-397 | one create-info per distinct family index, ascending |
| GpuRsrc.ReferKeepsCountsPositive | engine/core/HGpuRsrcManager.cpp:155-167 | referring keeps every count at least 1, below the `uint32_t` wrap |
| GpuRsrc.DereferKeepsCountsPositive | engine/core/HGpuRsrcManager.cpp:170-185 | dereferring keeps every count at least 1 |
| GpuRsrc.ReferThenDereferRestores | engine/core/HGpuRsrcManager.cpp:155-185 | a reference taken and given back restores the registry |
| GpuRsrc.CreatedThenDereferred | engine/core/HGpuRsrcManager.cpp:473-477 | a freshly created resource is destroyed by its one dereference |
| GpuRsrc.FirstUniversalFamily | engine/core/HGpuRsrcManager.cpp:349-378 | when family 0 offers all three, the loop stops after it and picks it for all three |
| GpuRsrc.ExaminedIsShortest | engine/core/HGpuRsrcManager.cpp:349-378 | the loop stops at the first family by which all three have been seen, and succeeds iff the whole list offers them |
| GpuRsrc.SelectionIsShortest | engine/core/HGpuRsrcManager.cpp:349-380 | success iff some families offer all three, and no earlier stop was possible |
| GpuRsrc.FoundAllGrows | engine/core/HGpuRsrcManager.cpp:349-378 | once found, the capabilities stay found in every longer prefix |
| GpuRsrc.CreateInfoCounts | engine/core/HGpuRsrcManager.cpp:385-397 | one create-info when one family serves all three, three when all differ |
| Serializer.Inserted | engine/core/HSerializer.cpp:20 | `insert` adds a new hash with its function; an existing hash keeps its function; no other entry changes |
| Serializer.HSerializer.constructor | engine/core/HSerializer.cpp:6-10 | a new registry is empty |
| Serializer.HSerializer.RegisterAClass | engine/core/HSerializer.cpp:18-21 | the registry becomes the insertion of the hash and function |
| Serializer.HSerializer.SerializeScene | engine/core/HSerializer.cpp:24-27 | the empty body changes no state |
| Serializer.HSerializer.DeserializeYamlToScene | engine/core/HSerializer.cpp:30-31 | the empty body changes no state |
| Serializer.FirstRegistrationWins | engine/core/HSerializer.cpp:20 | registering a hash twice keeps the first function |
| Serializer.EarliestRegistrationKept | engine/core/HSerializer.cpp:18-21 | after any registrations, a hash is present iff it was or was registered, and it maps to its earliest function |
| Pipeline.OrDefault | engine/render/HPipeline.cpp:178-211 | a set slot keeps its info, and an unset one gets the default |
| Pipeline.Filled | engine/render/HPipeline.cpp:178-211 | after default filling, each of the seven slots holds its old info or its default |
| Pipeline.HPipeline.constructor | engine/render/HPipeline.cpp:7-23 | every handle and info pointer null, stage count 0, the default-vertex-input flag false |
| Pipeline.HPipeline.SetVertexInputInfo | engine/render/HPipeline.h:40-43 | records a caller-owned vertex input info, leaving the flag and the other fields unchanged |
| Pipeline.HPipeline.SetShaderStageInfo | engine/render/HPipeline.cpp:235-241 | stores exactly the given count and pointer, and nothing else changes |
| Pipeline.HPipeline.CreatePipeline | engine/render/HPipeline.cpp:171-233 | requires a non-zero stage count; fills the null slots with defaults, sets the flag iff it installed the default vertex input, and hands the stages, the states and a null render pass to the create-info |
| Pipeline.HPipeline.Destroy | engine/render/HPipeline.cpp:25-67 | deletes exactly the non-null slots, the vertex input only when it is the default; destroys the pipeline iff a device is recorded |
| Pipeline.Deleted | engine/render/HPipeline.cpp:27-66 | the slots the destructor deletes |
| Pipeline.FilledIsComplete | engine/render/HPipeline.cpp:178-211 | after creation every slot is non-null, and filling again changes nothing |
| Pipeline.FilledKeepsWhatWasSet | engine/render/HPipeline.cpp:178-211 | an info set before creation is the one used; a missing one becomes the default |
| Pipeline.DefaultDynamicStateIsConsistent | engine/render/HPipeline.cpp:156-169 | the default dynamic states are exactly viewport and scissor, and the count agrees with the list |
| Pipeline.DestructorFreesOwnDefaultOnly | engine/render/HPipeline.cpp:27-30 | after creation the destructor frees the vertex input iff creation installed the default, and always the six other slots |
| Swapchain.FirstWanted | engine/render/HRenderManager.cpp:533-542 | the first index holding `B8G8R8A8_SRGB` with `SRGB_NONLINEAR`, with no wanted format before it |
| Swapchain.ChooseSurfaceFormat | engine/render/HRenderManager.cpp:532-543 | the asserted flag holds iff a wanted format exists, and then the format is the first wanted one |
| Swapchain.ChoosePresentMode | engine/render/HRenderManager.cpp:518-530 | FIFO iff it is offered, else the zero-initialised mode (immediate), which the assertion rejects |
| Swapchain.ToUint32 | engine/render/HRenderManager.cpp:551-552 | `static_cast<uint32_t>` keeps a value in range and otherwise wraps into it |
| Swapchain.Clamp | engine/render/HRenderManager.cpp:551-552 | `std::clamp` returns the value inside the range, the bound it falls below or exceeds otherwise |
| Swapchain.ImageExtent | engine/render/HRenderManager.cpp:550-553 | each dimension lies within the surface's minimum and maximum; a size that fits in `uint32_t` is clamped to that range |
| Swapchain.ImageCount | engine/render/HRenderManager.cpp:555-559 | one more than the minimum, lowered to a positive maximum when it exceeds it |
| Swapchain.Sharing | engine/render/HRenderManager.cpp:572-581 | concurrent over both family indices iff graphics and present differ, else exclusive |
| Swapchain.CreateSwapchain | engine/render/HRenderManager.cpp:518-585 | a create-info exists iff FIFO and a wanted format are available (the two assertions), and then it holds the count, first wanted format, extent, sharing and FIFO chosen by the rules |
| Swapchain.FrameRing.constructor | engine/render/HRenderManager.cpp:42-46 | the frame index starts at 0 and the resize flag is false |
| Swapchain.FrameRing.HandleResize | engine/render/HRenderManager.cpp:153-172 | out-of-date recreates the swapchain and takes the new image count; success and suboptimal continue; anything else is an error; the frame index and resize flag are unchanged; the frame index stays below the image count unless a recreation shrinks the count to or below it |
| Swapchain.FrameRing.Present | engine/render/HRenderManager.cpp:297-310 | out-of-date, suboptimal or the resize flag clear the flag and recreate; any other non-success is an error; otherwise the frame index becomes `(idx+1) mod imgCnt` and stays below the count |
| Swapchain.AcquireOutcome | engine/render/HRenderManager.cpp:162-171 | recreate iff out-of-date; continue iff success or suboptimal |
| Swapchain.PresentOutcome | engine/render/HRenderManager.cpp:299-307 | recreate iff out-of-date, suboptimal or resized; continue iff success without a resize |
| Swapchain.AfterPresents | engine/render/HRenderManager.cpp:309 | the frame index stays below the image count however many presents follow |
| Swapchain.SwapchainViews.constructor | engine/render/HBaseGuiRenderer.cpp:13-19 | no views and a count of 0 |
| Swapchain.SwapchainViews.CreateSwapchainImageViews | engine/render/HBaseGuiRenderer.cpp:144-174 | one view per swapchain image, in order, and the count equals the image count |
| Swapchain.SwapchainViews.CleanupSwapchain | engine/render/HBaseGuiRenderer.cpp:255-262 | exactly the counted views are destroyed, in order |
| Swapchain.FirstWantedIs | engine/render/HRenderManager.cpp:534-541 | the loop's break picks the first wanted format |
| Swapchain.FirstWantedInRange | engine/render/HRenderManager.cpp:533-543 | the assertion holds iff some wanted format exists |
| Swapchain.NextIndex | engine/render/HRenderManager.cpp:309 | the next frame index wraps to 0 after the last |
| Swapchain.FramesCountUp | engine/render/HRenderManager.cpp:309 | from frame 0 the first presents use frames 0, 1, 2, ... in turn |
| Swapchain.PresentsCompose | engine/render/HRenderManager.cpp:309 | presenting `j` times and then `k` times is presenting `j + k` times |
| Swapchain.RingReturns | engine/render/HRenderManager.cpp:309 | after as many presents as images the ring is back at 0, so frames are used round-robin |
| Swapchain.ImageCountWithinBounds | engine/render/HRenderManager.cpp:555-559 | for a minimum below the maximum (or no maximum), the count lies between the minimum and a positive maximum |
| Swapchain.ImageCountWraps | engine/render/HRenderManager.cpp:555 | a minimum of 2^32 - 1 with no maximum wraps the `uint32_t` count to 0 |
| Swapchain.NegativeSizeClampsToMax | engine/render/HRenderManager.cpp:551 | a negative framebuffer size becomes a huge `uint32_t` and is clamped to the maximum extent |
| Editor.HedgeEditor.constructor | editor/HedgeEditor.cpp:22-26 | one new scene, which is the active scene (index 0); no project is open |
| Editor.HedgeEditor.GenGameCMakeFileStr | editor/HedgeEditor.cpp:55-81 | the generated CMakeLists.txt text, with `yaml-cppd` for debug and `yaml-cpp` for release builds |
| Editor.HedgeEditor.BuildDebugGame | editor/HedgeEditor.cpp:100-134 | writes the debug file to `<root>\build\CMakeLists.txt`, removes `<root>\build/build` and configures that tree for Visual Studio 2019 |
| Editor.HedgeEditor.BuildAndReleaseGame | editor/HedgeEditor.cpp:137-161 | writes the release file, removes `<root>\build\build`, then configures it with Ninja in Release and compiles it with six jobs, in that order |
| Editor.HedgeEditor.CreateGameProject | editor/HedgeEditor.cpp:180-191 | the project name and `<root>\<name>.yml` are recorded; the first scene is saved as `<root>\scene\testScene.yml`; scenes and the root are unchanged |
| Editor.HedgeEditor.OpenGameProject | editor/HedgeEditor.cpp:220-244 | the scenes are replaced by the one loaded scene; the root is the directory of the project file; the names come from the configuration; the scene path is `<root>\scene\<first scene>` |
| Editor.CMakeTextFrame | editor/HedgeEditor.cpp:60-80 | the file starts with the minimum-version line and ends with the release output-directory line |
| Editor.DebugAndReleaseDifferInLinkOnly | editor/HedgeEditor.cpp:71-72 | the debug and release files differ, and only in the yaml-cpp link line |
| Editor.NullCppFollowsLinks | editor/HedgeEditor.cpp:74 | the line after the link list is `file(WRITE null.cpp )` followed by a blank line: the adjacent C++ literals concatenate |
| Editor.NoSpaceAfterB | editor/HedgeEditor.cpp:125-149 | both configure commands put the build tree straight after `-B` |
| Editor.BuildTrees | editor/HedgeEditor.cpp:123-160 | release configures and compiles the same `\build` tree; the debug tree `/build` is a different string |
| Editor.CreatedProjectReopens | editor/HedgeEditor.cpp:229-230 | reopening a created project recovers the root it was created under, when the project name has no backslash |
| GatherHeaders.Slice | tools/GatherHeaderFiles.py:16 | the length of Python's `s[lo:hi]`, with both bounds clamped to the string |
| GatherHeaders.Drop | tools/GatherHeaderFiles.py:19 | Python's `s[lo:]`: empty when `lo` is past the end, otherwise the suffix from `lo` |
| GatherHeaders.Last | tools/GatherHeaderFiles.py:18 | the length of Python's `s[-k:]`: `k`, or the whole of a shorter string |
| GatherHeaders.ContainsInWindowIsPrefix | tools/GatherHeaderFiles.py:16 | the CMakeUtils folder name occurs in the first 20 characters iff the folder path starts with it |
| GatherHeaders.DirSelectedIsPrefixTest | tools/GatherHeaderFiles.py:16 | a folder is walked iff it starts with neither `..\engine\build` nor `..\engine\CMakeUtils` |
| GatherHeaders.BuilderIsSkipped | tools/GatherHeaderFiles.py:16 | the build test is a prefix test, so it also skips `..\engine\builder` |
| GatherHeaders.IsHeaderIsSuffixTest | tools/GatherHeaderFiles.py:18 | a file is collected iff its name has at least two characters and ends with `.h` |
| GatherHeaders.GatherHeaderFiles | tools/GatherHeaderFiles.py:13-19 | the nested loop collects the entries of the walk in walk order |
| GatherHeaders.CollectedIff | tools/GatherHeaderFiles.py:15-19 | an entry is collected iff it comes from a header file of a walked folder |
| GatherHeaders.FromDirIff | tools/GatherHeaderFiles.py:16-19 | an entry comes from a folder iff the folder is walked and one of its files is a header giving that entry |
| GatherHeaders.CopyActions | tools/GatherHeaderFiles.py:26-29 | two actions per collected file |
| GatherHeaders.CopyActionsAt | tools/GatherHeaderFiles.py:26-29 | the `k`-th file's folder is made and then the file is copied to its destination, in list order |
| GatherHeaders.StageHeaders | tools/GatherHeaderFiles.py:21-29 | nothing happens without the target directory; otherwise an existing header tree is removed, the header root is made and every file is copied |
| GatherHeaders.DestinationKeepsTree | tools/GatherHeaderFiles.py:19-29 | a file under `..\engine<rest>` lands at `<tarDir>\headers<rest>\<name>` |

## Left out

- Process and file I/O are not modelled: the `dxc.exe` subprocess, directory listings, `os.walk`, `std::system`, `std::filesystem` and the YAML emit/load. Directory listings and walks are parameters. Commands, removals and copies are returned as values. YAML values are arguments.
- `BuildAndReleaseGame` copies the game executable, the configuration and the scene folder to the target directory (editor/HedgeEditor.cpp:151-160). Only the generated file and the build commands are modelled.
- `CreateGameProject` writes a project file whose fields (engine version, names, first scene) are not modelled.
- Vulkan, VMA and GLFW calls are not modelled. Handles are opaque `nat` or `object` values, and `VkResult` and format enumerants are integers.
- `RecreateSwapchain`'s internals, synchronisation objects and command recording are left out. Recreation is a new image count.
- Dear ImGui and the key and mouse polling in `HandleInput` (engine/input/InputHandler.cpp:56-119) are left out. The frame's inputs are a parameter.
- `Input.ImGuiInputHandler.HandleInput`: an `unordered_set` has no iteration order the source fixes. The commands follow a ghost order `fired` over the firing generators.
- The virtual `GenerateCommand` of a generic generator is a function parameter.
- Floating point is modelled as exact `real` arithmetic. Rounding, NaN and infinities are not modelled.
- `Norm`, `NormalizeVec` and the `Gen*Mat` matrix builders (engine/util/UtilMath.cpp:9-140) use `sqrt` and trigonometry and are left out.
- `UtilMath`: the methods require the output array to be distinct from the input arrays. The source does not forbid aliasing, but aliased calls produce mixed results that the model does not describe.
- Memory management is not modelled: the `delete` calls, `HGpuRsrcManager::CleanupAllRsrc` (it erases from the map while iterating over it, which is undefined behaviour) and the `delete` through a dangling reference in `AddOrUpdateCommandGenerator`. Only set and map membership is kept.
- `std::hash` in `HEvent.cpp` is a function given to the event manager. `CubeStrId` is a constructor parameter, because `g_builtInModels.h` is not part of this model.
- `GetExePath` uses Win32 and is left out.
- The entt scene and entity glue, `OnEvent` handlers, the main loop, spdlog logging and the game-template stubs are left out.
- `Swapchain.FrameRing.HandleResize`: a recreation at acquire that shrinks the image count to or below the current frame index leaves the ring outside `Valid()`, so `Present` cannot be called after it. The source indexes its per-frame fences, semaphores and command buffers with that index (engine/render/HRenderManager.cpp:143-292), so the model does not describe that frame.
- `Swapchain.Clamp` requires `lo <= hi`, which `std::clamp` itself requires.
- `Swapchain.AfterPresents` states only the bound. Its behaviour is stated by `FramesCountUp`, `PresentsCompose` and `RingReturns`.
- `GatherHeaders.Slice` and `GatherHeaders.Last` state only the length of the slice. The folder and file tests are characterised by `DirSelectedIsPrefixTest` and `IsHeaderIsSuffixTest`.
- Python's negative slice bounds are modelled only for the `[-2:]` the header filter uses.
- `os.path.join` is modelled for a plain file name. Drive letters and absolute names are not modelled.

## Findings

| source | as written | input that shows it | evidently intended | confidence | as-written member | corrected member |
|---|---|---|---|---|---|---|
| engine/core/HAssetRsrcManager.cpp:40-44 | `LoadAsset` builds a local `AssetWrap` with count 1 for an unknown GUID and never inserts it, so no asset other than the built-in cube can be registered | `LoadAsset` of any path whose CRC-32 is not registered, for example any path but the cube on a fresh manager | the new asset is inserted with one reference | not executed | Asset.LoadNeverInserts, Asset.FreshLoadFails | Asset.HAssetRsrcManager.LoadAssetIntended, Asset.IntendedLoadRegisters |
| ExampleGames/Pong/code/MainGameEntity.h:41 | `GenerateCommand` inspects only `inputs[0]`, and inputs are listed in polling order, so another held key before the arrow decides the direction | W and the up arrow held together: W is polled first, so the paddle moves down | the paddle moves toward the held arrow | not executed | Pong.UpWithWMovesDown | Pong.IntendedBoardMoveCommand, Pong.IntendedFollowsTheArrow |
