# A verified model of the Solidity++ compiler's hard core

This project models, in Dafny, the parts of the Solidity++ compiler (a Solidity
fork for the Vite VM) whose correctness is decided by code rather than by
plumbing, and proves what they promise for all inputs. `dafny verify
dfyconfig.toml` checks everything.

| file | what it models |
|---|---|
| `Wrappers.dfy`, `Bytes.dfy` | optional results; big-endian numbers, byte counts, windows overwritten in place |
| `Instructions.dfy` | opcodes and `eachInstruction`, the disassembler |
| `AssemblyModel.dfy` | items, assemblies, and the layout that assembled code has to have |
| `Assembler.dfy` | `Assembly::assemble` and `bytesRequired`: emit with holes, append, patch |
| `AssemblyTheorems.dfy`, `AssemblyPlacement.dfy` | disassembly, jump targets, references, links |
| `AssemblyEstimate.dfy` | the size estimate against the real sizes, and the bytes of each item in numbers |
| `AssemblyExample.dfy`, `AssemblyLimits.dfy` | the description worked out by hand: a small tree of assemblies, and assemblies at which promises fail |
| `SubPaths.dfy` | `encodeSubPath` and `decodeSubPath` |
| `Immutables.dfy` | running the code of an immutable assignment on a small machine |
| `Linkers.dfy` | `LinkerObject::link`, `toHex` and the text linker of the command line |
| `AbiTypes.dfy`, `AbiDecoder.dfy`, `AbiStatic.dfy`, `AbiBounds.dfy`, `AbiOverread.dfy`, `AbiEncoder.dfy`, `AbiExample.dfy`, `CompactArray.dfy` | the code generated for ABI encoding and decoding |
| `StorageLayout.dfy` | storage packing, storage sizes and their upper bound |
| `RationalTypes.dfy` | the types and values of number literals |
| `StructRecursion.dfy` | the marking of recursive structs |
| `Blake2b.dfy` | BLAKE2b: the reference of RFC 7693 and the streaming implementation |
| `Blake2bVector.dfy`, `Blake2bKeyed.dfy` | two published digests, round by round |
| `SourceMap.dfy`, `Functionalizer.dfy` | source-map compression and functional-notation printing |

## Main results

* **Assembler.** An outside description (`Correct`) says how the objects of a tree
  of assemblies have to be laid out; it has at most one solution
  (`CorrectIsUnique`). `Assemble` finds it, and fails exactly where there is none.
  From the description alone follow: the disassembler reads back the items' instructions with every
  operand in place (`AssembledDisassembles`), which it does if and only if no
  operation before the last item is itself a push (`DisassemblesExactly`,
  `BoundariesExact`), jumps go to valid destinations (`OwnJumpIsValid`,
  `ForeignJumpIsValid`), and the search for the tag width ends. All references to
  sub-assemblies, data and the size are pushed exactly if and only if the last of
  their targets fits the width chosen for them (`PushedExactlyIfFits`), and then
  they point at verbatim copies (`PushedReferenceIsRight`); `FourthCopyIsCut` is a
  program in which one is cut. "Tag too large for reserved space" fires if and only
  if the furthest of the assembly's own tags does not fit (`TagTooLargeExactly`),
  never where every item's estimate is an upper bound, which each is exactly under
  the condition `ItemCovered` (`PieceCovered`); `EstimateCanFallShort` is an
  assembly at which it does fire. The estimate itself is the real size and a slack
  that is known item by item and zero for most (`EstimateIsCode`, `ExactEstimate`).
* **Immutables.** Executing the expansion of the first assignment substitutes the
  value at every read of the copied runtime code and changes nothing else
  (`AssignmentPatchesRuntime`).
* **ABI.** The generated encoder writes the encoding of the ABI specification into
  memory although byte arrays clobber what follows them (`Memory.EncodeTuple`); the
  generated decoder, with its 256-bit wrap-around and all its checks, never reverts
  on it and returns the cleaned values (`EncodeThenDecode`). Bytes beyond the end
  of the data never matter to the tuple decoder if and only if its types hold no
  array of dynamically encoded elements but static ones of length 1
  (`StaysInsideExactly`). For tuples of statically encoded types the decoder returns
  values if and only if the data are their encoding (`DecodesExactly`); for all others
  it follows the offsets wherever they lead (`PlacedDecodes`). Storage that holds words
  in packed form is encoded as these words (`EncodeCompact`).
* **Storage.** Greedy packing is safe, stable and optimal among all order-preserving
  layouts (`PackingIsOptimal`); a type accepted for storage trips no assertion
  (`AcceptedIsChecked`).
* **BLAKE2b.** However a message is cut, the digest is that of section 3.3 of
  RFC 7693 (`HashPieces`), and this is the published one for the message of Appendix A
  and for a keyed message of two blocks (`DigestOfAbc`, `KeyedDigest`).
* **Recursive structs.** A struct is marked if and only if it can reach a cycle
  (`Checker.VisitAll`).
* **Linkers.** On assembled objects, linking bytes and linking text agree if and
  only if every reference that is resolved is so by its full name, with an address
  that ends in a zero byte (`AssembledLinkersAgree`).
* **Printers.** Source maps decompress to one entry for each item that says what is
  known of it, and hold nothing that did not change (`ComputeSourceMapping`). What is
  printed of items is unique (`PrintsOnce`): one line for each of the expressions that
  linearise to them, every item with all its arguments if these are pending since the
  last break and alone if not (`AssemblyStream`, `BreaksExactly`). The lines determine
  the texts of all items, of whatever kind, and their order (`LinesDetermineItems`).
* **Literals.** Types of literals are the narrowest, and exist exactly in range.

Where the code and its comments differ, the model follows the code:

* `subTagSize` is the largest tag position of a sub-assembly, not a byte count
  (libevmasm/Assembly.cpp:567-569), so the width search starts there (`StartsAbove`).
* The per-item estimate is called a requirement, but an `AssignImmutable` nobody
  reads is estimated at one byte and takes two, and `PushData`/`PushSub` are estimated
  with another width than they are emitted with; `PieceCovered` gives the exact
  condition and `EstimateCanFallShort` an assembly that cannot be assembled for that reason.
* `LinkerObject::link` copies 20 of the 21 bytes of an address
  (libevmasm/LinkerObject.cpp:45); `LinkersAgree` says what this means.
* The first entry of a source map is never empty because of its jump field, for
  every modifier depth, so no condition on depths is needed for the separators.

## Model

| member | source | states |
|---|---|---|
| `Bytes.CountBytes` | libsolutil/CommonData.h:423-429 | the shifting loop counts the base-256 digits of the number |
| `Bytes.BytesRequiredExact` | libsolutil/CommonData.h:421-429 | a number needs at most w bytes if and only if it is below 256^w |
| `Bytes.StoreBigEndian` | libsolutil/CommonData.h:350-358 | the loop overwrites exactly the window with the low bytes of the number and nothing outside it |
| `Bytes.FromToBigEndian` | libsolutil/CommonData.h:345-370 | reading a written window gives the number modulo 256^width |
| `Bytes.ToFromBigEndian` | libsolutil/CommonData.h:350-370 | writing what was read restores the bytes |
| `Instructions.EachInstruction` | libevmasm/Instruction.cpp:341-368 | the nested loops report the recursive reading of the code, data cut off at the end padded with zeros |
| `Instructions.DisassembleCode` | libevmasm/Instruction.cpp:341-368 | emitted instructions are read back in order, whatever bytes follow |
| `Instructions.BoundaryAfter` | libevmasm/Instruction.cpp:346-366 | what follows emitted instructions starts at an instruction boundary |
| `AssemblyModel.ForeignTagSplits` | libevmasm/AssemblyItem.cpp:32-48 | packing a sub id and a tag into one word and splitting it loses neither |
| `SubPaths.Registry.EncodeSubPath` | libevmasm/Assembly.cpp:807-824 | the number stands for the path, all earlier numbers keep their meaning, and the assertions fire exactly in the listed cases |
| `SubPaths.Registry.DecodeSubPath` | libevmasm/Assembly.cpp:792-805 | finds the one path a number stands for, or fails exactly where there is none |
| `SubPaths.Registry.NewSub` | libevmasm/Assembly.h:39 | a new direct sub-assembly gets the next number and leaves every other number's meaning |
| `SubPaths.EncodeThenDecode` | libevmasm/Assembly.cpp:792-824 | a number decodes to the path it was handed out for, whatever paths are registered and subs added in between |
| `SubPaths.FindPathDecodes` | libevmasm/Assembly.cpp:797-804 | the lookup that the assembler's model uses finds exactly the path a number stands for |
| `Assembler.EmitString` | libevmasm/Assembly.cpp:618-630 | PUSH32 and the string cut to 32 bytes or padded with zeros |
| `Assembler.EmitAssignment` | libevmasm/Assembly.cpp:688-712 | the bytes of the store sequence for all recorded offsets, POP POP if there are none; fails exactly for offsets no push can hold |
| `Assembler.EmitBytes` | libevmasm/Assembly.cpp:613-727 | the bytes of an item with zeros in its hole; fails exactly for items the switch cannot emit |
| `Assembler.PlaceTag` | libevmasm/Assembly.cpp:717-724 | the tag table stays right: each tag at the offset of its one definition, tag 0 at the first item that is not a tag; fails only if the tags of the assembly cannot be placed at all |
| `Assembler.RecordHole` | libevmasm/Assembly.cpp:640-676 | every reference item leaves exactly one recorded hole behind its push opcode |
| `Assembler.EmitItem` | libevmasm/Assembly.cpp:607-728 | one iteration keeps the description of bytes, tags, holes, links and immutables |
| `Assembler.Emit` | libevmasm/Assembly.cpp:607-728 | the main loop emits all items with zeros in the holes and records everything needed later; fails only if no object meets the description |
| `Assembler.PatchHole` | libevmasm/Assembly.cpp:742-788 | writing a number into an item's hole changes that item's operand and no other byte of the code |
| `Assembler.AppendSubs` | libevmasm/Assembly.cpp:742-747 | one copy per PushSub is appended in the order of the multimap, each reference gets the offset of its own copy, links move along |
| `Assembler.PatchTags` | libevmasm/Assembly.cpp:749-768 | every PushTag gets its tag's position, which fits the width; other operands stay; TagTooLarge only where a position does not fit |
| `Assembler.PatchData` | libevmasm/Assembly.cpp:771-778 | all references to one hash get the current end of the code, all others stay |
| `Assembler.AppendData` | libevmasm/Assembly.cpp:769-780 | exactly the data that is referred to is appended, and references get its offset |
| `Assembler.PatchSizes` | libevmasm/Assembly.cpp:784-788 | every PushProgramSize gets the length of the finished object |
| `Assembler.EachPatchLasts` | libevmasm/Assembly.cpp:742-788 | no patching pass undoes another: in the end all references are resolved together |
| `Assembler.SubOrderDistinct` | libevmasm/Assembly.cpp:594-655 | every PushSub has at most one place in the multimap's order |
| `Assembler.SubOrderComplete` | libevmasm/Assembly.cpp:594-655 | every PushSub has a place in that order |
| `Assembler.EstimateOnce` | libevmasm/Assembly.cpp:54-60 | one pass sums one byte, all data and all item estimates |
| `Assembler.EstimateSize` | libevmasm/Assembly.cpp:50-63 | the search ends for every item list and start, at the first width from the start on that fits its own estimate |
| `Assembler.SearchEnds` | libevmasm/Assembly.cpp:50-63 | a wide enough tag always fits the estimate made with it |
| `Assembler.PieceCovered` | libevmasm/AssemblyItem.cpp:50-82 | an item takes no more bytes than its estimate if and only if its widths fit and an assigned immutable is read |
| `AssemblyEstimate.AssignmentSize` | libevmasm/Assembly.cpp:688-712 | an assignment takes the bytes of its offsets, five for each and two less for the last; two bytes if there are none |
| `AssemblyEstimate.PieceEstimate` | libevmasm/AssemblyItem.cpp:50-82 | the estimate of an item is the number of its bytes, and for references, sizes and assignments the slack that `Slack` lists |
| `AssemblyEstimate.EstimateIsCode` | libevmasm/Assembly.cpp:50-63 | the estimate of an assembly is one byte, all data, the code and the sum of the slacks |
| `AssemblyEstimate.ExactEstimate` | libevmasm/Assembly.cpp:50-63 | for assemblies without references to subs and data, sizes and assignments, the estimate at the width that tags get is one byte, the data and the code |
| `AssemblyEstimate.WidthsOfObject` | libevmasm/Assembly.cpp:590-604 | in a finished object the widths of tags and of references are those of the bytes really there, and the slack |
| `AssemblyEstimate.PieceInNumbers` | libevmasm/Assembly.cpp:613-727 | the bytes of every kind of item, with the opcodes as numbers |
| `AssemblyEstimate.StoreInNumbers` | libevmasm/Assembly.cpp:697-706 | the bytes of one store of an assignment, with the opcodes as numbers |
| `Assembler.CodeCovered` | libevmasm/Assembly.cpp:50-63 | if all items are covered, every prefix of the code is within its estimate |
| `Assembler.ForeignTagFits` | libevmasm/Assembly.cpp:567-569 | the position of a tag of a sub-assembly always fits the tag width |
| `Assembler.OwnTagFits` | libevmasm/Assembly.cpp:590-597 | the position of an own tag fits whenever the estimate covers the code |
| `Assembler.FurthestIsPushed` | libevmasm/Assembly.cpp:749-762 | the furthest of the own tags pushed is the target of some PushTag |
| `Assembler.TagTooLargeExactly` | libevmasm/Assembly.cpp:765 | "Tag too large for reserved space" fires if and only if the furthest of the own tags pushed does not fit the tag width |
| `Assembler.NoTagOverflows` | libevmasm/Assembly.cpp:765 | in particular it does not where the estimate covers the code |
| `Assembler.InspectSubs` | libevmasm/Assembly.cpp:553-570 | collects the one sub-assembly's immutables and the least start width not below any tag position; fails exactly if several read immutables |
| `Assembler.UnassignedEmpty` | libevmasm/Assembly.cpp:730-736 | the references left over are empty if and only if every immutable read is assigned |
| `Assembler.Finish` | libevmasm/Assembly.cpp:730-789 | success means the required layout, failure that there is none; error 1284 exactly when some immutable read is never assigned |
| `Assembler.AssembleOne` | libevmasm/Assembly.cpp:542-790 | with assembled subs: gives the object that meets the description and fails exactly where there is none; "Tag too large" implies that the furthest own tag does not fit and that the estimate does not cover the code |
| `Assembler.Assemble` | libevmasm/Assembly.cpp:542-790 | on a whole tree: gives the objects that meet the description and fails exactly where there are none |
| `Assembler.TagTableUnique` | libevmasm/Assembly.cpp:591-611 | the items determine all tag positions |
| `Assembler.PreparedUnique` | libevmasm/Assembly.cpp:553-604 | the assembly and its subs determine the widths and the immutables |
| `Assembler.LaidIsUnique` | libevmasm/Assembly.cpp:607-790 | the description of an object has at most one solution |
| `Assembler.CorrectIsUnique` | libevmasm/Assembly.cpp:542-790 | there is at most one correct result for a tree of assemblies |
| `AssemblyExample.ObjectIsCorrect` | libevmasm/Assembly.cpp:542-790 | a constructor with an immutable, a sub-assembly, a foreign tag and data, and its runtime code, with all offsets worked out, meet the description |
| `AssemblyExample.ConstructorBytes` | libevmasm/Assembly.cpp:607-790 | the bytes of its object, one by one |
| `AssemblyExample.AssignmentRunsHere` | libevmasm/Assembly.cpp:688-712 | its assignment, run on a copy of its runtime code, makes this push the value |
| `AssemblyTheorems.AssembledDisassembles` | libevmasm/Assembly.cpp:607-790 | the disassembler yields the items' instructions in order, each operand modulo 256^width, then the trailer |
| `AssemblyTheorems.BoundariesExact` | libevmasm/Assembly.cpp:615-617 | all items start at instruction boundaries if and only if no operation before the last item is itself a push |
| `AssemblyTheorems.PaddedBack` | libevmasm/Instruction.cpp:363-364 | assembling what was disassembled gives the code back, with at most the padding of its last instruction |
| `AssemblyTheorems.DisassemblesExactly` | libevmasm/Assembly.cpp:607-728 | the code disassembles to the instructions of its items if and only if no operation but the last item is itself a push |
| `AssemblyTheorems.ObjectDisassemblesExactly` | libevmasm/Assembly.cpp:738-740 | where something follows the code, the whole object disassembles to the items and what follows if and only if no operation at all is a push |
| `AssemblyTheorems.ItemAt` | libevmasm/Assembly.cpp:607-728 | each item's bytes lie at its offset and that is an instruction boundary |
| `AssemblyTheorems.TagOperandFits` | libevmasm/Assembly.cpp:765-767 | a pushed tag is never cut |
| `AssemblyTheorems.DefinedTagIsDestination` | libevmasm/Assembly.cpp:717-724 | a tag before whose definition no operation is a push is a valid jump destination (section 9.4.3 of the Ethereum Yellow Paper) |
| `AssemblyTheorems.TagIsDestinationExactly` | libevmasm/Assembly.cpp:717-724 | a tag is a jump destination if and only if the code before it disassembles without an instruction that lacks data |
| `AssemblyTheorems.OwnJumpIsValid` | libevmasm/Assembly.cpp:640-646 | every PushTag of such a tag of the assembly itself pushes a valid jump destination |
| `AssemblyTheorems.ForeignJumpIsValid` | libevmasm/Assembly.cpp:749-768 | every foreign PushTag of such a tag pushes a valid jump destination of its sub-assembly's bytecode |
| `AssemblyLimits.RawPushSwallowsTarget` | libevmasm/Assembly.cpp:615-617 | an assembled program in which an operation that is a push swallows the tag behind it, so that the tag is no destination |
| `AssemblyTheorems.ErrorTagIsNoDestination` | libevmasm/Assembly.cpp:609-611 | in every assembly PushTag 0 pushes the position of the first item that is not a tag, a destination if and only if that item is a bare JUMPDEST |
| `AssemblyPlacement.SubReferenceIsRight` | libevmasm/Assembly.cpp:742-747 | the number a PushSub is meant to push, before it is cut to its hole, is the place of a verbatim copy of the sub-assembly's bytecode |
| `AssemblyPlacement.DataReferenceIsRight` | libevmasm/Assembly.cpp:769-780 | the number a PushData is meant to push, before it is cut, is the place of its data |
| `AssemblyPlacement.SizeReferenceIsRight` | libevmasm/Assembly.cpp:784-788 | the number a PushProgramSize is meant to push, before it is cut, is the final length |
| `AssemblyPlacement.TargetBound` | libevmasm/Assembly.cpp:742-788 | no reference is meant to push more than the last target, which the items and the sizes of what is appended determine |
| `AssemblyPlacement.PushedExactlyIfFits` | libevmasm/Assembly.cpp:742-788 | all references to subs, data and the size push the whole number if and only if the last target fits the width of data references |
| `AssemblyPlacement.PushedReferenceIsRight` | libevmasm/Assembly.cpp:742-788 | then the number pushed is the place of a verbatim copy of the sub-assembly or of the data, or the final length |
| `AssemblyPlacement.OrderSorted` | libevmasm/Assembly.cpp:594 | copies are appended in the order of sub ids |
| `AssemblyPlacement.CopiesFit` | libevmasm/Assembly.cpp:599-601 | if each direct sub is referred to at most once, all copies fit what was counted once per sub |
| `AssemblyPlacement.OnceIsCounted` | libevmasm/Assembly.cpp:599-601 | such assemblies meet the condition of `RoomForAll` and `NothingIsCut`: all copies together take no more than all subs counted once |
| `AssemblyPlacement.CodeShorterThanEstimate` | libevmasm/Assembly.cpp:50-63 | where all items are covered the code is strictly shorter than the estimate |
| `AssemblyLimits.EstimateCanFallShort` | libevmasm/AssemblyItem.cpp:73-75 | an assembly of 130 assignments of an unread immutable and a tag: estimated at 134 bytes, 263 long, its tag does not fit the one byte kept for it, and nothing is its correct result |
| `AssemblyPlacement.RoomForAll` | libevmasm/Assembly.cpp:599-605 | where the estimate covers the items and the copies are counted, the whole object is shorter than 256 to the width of data references |
| `AssemblyPlacement.NothingIsCut` | libevmasm/Assembly.cpp:742-788 | under those conditions all references are pushed exactly |
| `AssemblyLimits.FourthCopyIsCut` | libevmasm/Assembly.cpp:600-601 | an assembled program that pushes a sub of 101 bytes four times: the last copy is at 312 and is referred to as 56 |
| `AssemblyPlacement.WindowsAppend` | libevmasm/LinkerObject.cpp:32-37 | appending an object keeps every link reference at a blank window of its own |
| `AssemblyPlacement.CorrectLinksFit` | libevmasm/Assembly.cpp:677-681 | in every assembled object all link references are disjoint windows of 21 zero bytes inside the code |
| `AssemblyPlacement.SubLinksShifted` | libevmasm/LinkerObject.cpp:32-37 | each link reference of a sub-assembly reappears shifted by the offset of every copy |
| `Immutables.AssignmentRuns` | libevmasm/Assembly.cpp:688-712 | the expansion pops exactly base and value and stores the value at base + offset for every offset |
| `Immutables.ReadsApart` | libevmasm/Assembly.cpp:682-687 | recorded offsets of an immutable are at least 33 apart |
| `Immutables.StoreEachSubstitutes` | libevmasm/Assembly.cpp:682-712 | those stores turn a copy of the code into the code with every read of that immutable filled in, and nothing else changes |
| `Immutables.PatchedDisassembles` | libevmasm/Assembly.cpp:682-687 | the patched code disassembles to the items with each such PushImmutable pushing the value, if no operation but the last item is itself a push |
| `Immutables.AssignmentPatchesRuntime` | libevmasm/Assembly.cpp:575-580 | running the first assignment in the constructor fills the value into the copied runtime code and leaves all other memory and the rest of the stack alone; the copy then disassembles accordingly if no operation but the last item is a push |
| `Linkers.ToHex` | libevmasm/LinkerObject.cpp:51-66 | placeholders in the reference windows, hexadecimal digits of the code elsewhere |
| `Linkers.Link` | libevmasm/LinkerObject.cpp:40-49 | 20 bytes of each resolved address are copied, all other bytes stay, exactly the unresolved references remain |
| `Linkers.Replacements` | solppc/CommandLineInterface.cpp:1775-1793 | an unambiguous name has its placeholder in the table if and only if its library is given, with that address |
| `Linkers.LinkTextInPlace` | solppc/CommandLineInterface.cpp:1795-1819 | the scan replaces every known placeholder and fails exactly at a malformed reference |
| `Linkers.LinkTextFrom` | solppc/CommandLineInterface.cpp:1797-1819 | scanning the text of an object never fails, finds exactly its references and replaces the resolved ones as a whole |
| `Linkers.LinkersAgree` | libevmasm/LinkerObject.cpp:40-66 | the two linkers agree everywhere but in references by short name and on the last byte of resolved references, and completely if and only if there are no such references and those bytes are already in the code |
| `Linkers.AssembledIsApart` | libevmasm/Assembly.cpp:677-681 | assembled objects meet what the linkers rely on |
| `Linkers.ShortNameDiffers` | libevmasm/LinkerObject.cpp:73-91 | a reference resolved by its short name only is linked in the bytes and left in the text |
| `Linkers.AssembledLinkersAgree` | solppc/CommandLineInterface.cpp:1772-1822 | on assembled objects the linkers agree if and only if every resolved reference is given by its full name with an address that ends in a zero byte |
| `AbiTypes.CleanedInRange` | libsolidity/codegen/ABIFunctions.cpp:363-371 | the cleanup of any word gives a word in range |
| `AbiTypes.CleanedKeeps` | libsolidity/codegen/ABIFunctions.cpp:363-371 | the cleaned word agrees with the word in all bits its type has; a bool is cleaned to zero exactly if it is zero |
| `AbiTypes.CleanedSame` | libsolidity/codegen/ABIFunctions.cpp:363-371 | and leaves words in range alone |
| `AbiTypes.TypedIsClean` | libsolidity/codegen/ABIFunctions.cpp:363-371 | values in range are what their own cleanup gives |
| `AbiTypes.CleanIsTyped` | libsolidity/codegen/ABIFunctions.cpp:363-371 | what cleanup gives is in range at every depth |
| `AbiTypes.CleanValue` | libsolidity/codegen/ABIFunctions.cpp:345-371 | every value of the right shape without an enum out of range has a cleaned value |
| `AbiTypes.TypedStays` | libsolidity/codegen/ABIFunctions.cpp:363-371 | values in range have a cleaned value, which is themselves |
| `AbiTypes.SizesMultipleOf32` | libsolidity/ast/Types.cpp:1673-1700 | padded encoded sizes are multiples of 32 and at least 32 |
| `AbiTypes.StaticSize` | libsolidity/ast/Types.cpp:2098-2111 | a statically encoded value takes exactly `calldataEncodedSize(true)` bytes |
| `AbiTypes.HeadsSize` | libsolidity/codegen/ABIFunctions.cpp:1521-1528 | the head parts take exactly `headSize` bytes |
| `AbiDecoder.DecodeElementLoop` | libsolidity/codegen/ABIFunctions.cpp:1158-1176 | the loop with its moving source pointer decodes the elements one after the other and reverts if one does |
| `AbiDecoder.DecodedIsTyped` | libsolidity/codegen/ABIFunctions.cpp:1049-1110 | whatever the input, a decoded value has the type asked for |
| `AbiDecoder.ElementDecodes` | libsolidity/codegen/ABIFunctions.cpp:218-228 | the decoders look for each element of an encoded tuple in the right place |
| `AbiDecoder.AvailableDecodes` | libsolidity/codegen/ABIFunctions.cpp:1146-1204 | encoded array elements are decoded, through all checks |
| `AbiDecoder.BytesDecode` | libsolidity/codegen/ABIFunctions.cpp:1255-1282 | encoded byte arrays are decoded, without their padding |
| `AbiDecoder.DecodeUndoesEncoding` | libsolidity/codegen/ABIFunctions.cpp:1049-1082 | for every type the generated decoder returns the encoded value |
| `AbiDecoder.TupleDecodeUndoesEncoding` | libsolidity/codegen/ABIFunctions.cpp:185-244 | the generated tuple decoder never reverts on a tuple encoding and returns the values |
| `AbiDecoder.PlacedDecodes` | libsolidity/codegen/ABIFunctions.cpp:185-244 | the tuple decoder returns values that are encoded where the heads say, in any order, apart or overlapping |
| `AbiStatic.DecodedIsEncoded` | libsolidity/codegen/ABIFunctions.cpp:1084-1110 | a decoded value of a statically encoded type is what the bytes read encode |
| `AbiStatic.DecodesExactly` | libsolidity/codegen/ABIFunctions.cpp:185-244 | for tuples of statically encoded types the decoder returns values if and only if there is room and the data are their encoding, so it reverts exactly on data that encode no values |
| `AbiBounds.DecodeStaysInside` | libsolidity/codegen/ABIFunctions.cpp:1049-1204 | for types all of whose head words are checked, decoding at any position depends only on the bytes before the end |
| `AbiBounds.BytesStayInside` | libsolidity/codegen/ABIFunctions.cpp:1255-1282 | so does decoding byte arrays at any position, out of bounds or not |
| `AbiBounds.ArrayStaysInside` | libsolidity/codegen/ABIFunctions.cpp:1190-1198 | so does decoding dynamic arrays of statically encoded elements, whatever length is claimed |
| `AbiBounds.TupleStaysInside` | libsolidity/codegen/ABIFunctions.cpp:185-244 | so does the generated tuple decoder, on any input and from any start |
| `AbiBounds.ZeroDecodes` | libsolidity/codegen/ABIFunctions.cpp:1049-1204 | enough zeros are a value of every type whose words admit zero |
| `AbiOverread.Overreads` | libsolidity/codegen/ABIFunctions.cpp:1184-1190 | for every type with an unchecked head word there are data on which bytes beyond the end decide whether the decoder reverts |
| `AbiOverread.TupleOverreads` | libsolidity/codegen/ABIFunctions.cpp:185-244 | and so for the tuple decoder of every tuple with such a type |
| `AbiOverread.StaysInsideExactly` | libsolidity/codegen/ABIFunctions.cpp:185-244 | bytes beyond the end never matter to the tuple decoder if and only if arrays of dynamically encoded elements occur only as static ones of length 1 |
| `AbiOverread.HeadsAreUnchecked` | libsolidity/codegen/ABIFunctions.cpp:1184-1190 | for a static array of two byte arrays in the 64 bytes 32, 2^256 - 32, the tuple decoder returns values if the word behind them is 2^256 - 32 and reverts if it is 32; an array of a single byte array is safe |
| `AbiEncoder.Memory.MStore` | libsolidity/codegen/ABIFunctions.cpp:1499 | overwrites 32 bytes with the big-endian word |
| `AbiEncoder.Memory.CopyToMemory` | libsolidity/codegen/YulUtilFunctions.cpp:88-100 | copying whole words and clearing the end leaves the bytes and zero padding, whatever lies beyond the source |
| `AbiEncoder.Memory.EncodeBytes` | libsolidity/codegen/ABIFunctions.cpp:618-653 | length word, contents and padding are written; nothing before them changes |
| `AbiEncoder.Memory.EncodeTuple` | libsolidity/codegen/ABIFunctions.cpp:53-100 | the tuple's encoding is written, the tail returned is its end, and static tuples touch nothing else |
| `AbiEncoder.Memory.EncodeArray` | libsolidity/codegen/ABIFunctions.cpp:508-616 | both templates write the elements' encoding |
| `AbiEncoder.Memory.EncodeWithTail` | libsolidity/codegen/ABIFunctions.cpp:537-557 | the template for dynamically encoded elements writes heads and tails |
| `AbiEncoder.Memory.EncodeInSequence` | libsolidity/codegen/ABIFunctions.cpp:558-573 | the template for statically encoded elements writes them one after the other and touches nothing else |
| `AbiEncoder.Memory.EncodeUpdatedPos` | libsolidity/codegen/ABIFunctions.cpp:376-420 | returns the position after the encoding, for static types by their fixed size |
| `AbiEncoder.Memory.Encode` | libsolidity/codegen/ABIFunctions.cpp:261-374 | for every type writes the encoding of the cleaned value as the ABI specification defines it |
| `AbiEncoder.StaticStep` | libsolidity/codegen/ABIFunctions.cpp:79-81 | writing a static element into its head disturbs neither earlier heads nor tails |
| `AbiEncoder.DynamicStep` | libsolidity/codegen/ABIFunctions.cpp:75-78 | writing a head word and then the tail disturbs nothing written before |
| `AbiEncoder.EncodeThenDecode` | libsolidity/codegen/ABIFunctions.cpp:22-244 | decoding the region the encoder wrote returns the cleaned values, which are the original ones where these are in range |
| `AbiEncoder.EncodingIsInjective` | libsolidity/codegen/ABIFunctions.cpp:22-244 | different values never have the same encoding |
| `AbiExample.FEncoding` | libsolidity/codegen/ABIFunctions.cpp:53-100 | the encoding of the arguments (0x123, [0x456, 0x789], "1234567890", "Hello, world!") word by word, as the ABI specification prints it |
| `AbiExample.RowsEncoding` | libsolidity/codegen/ABIFunctions.cpp:537-557 | the encoding of [[1, 2], [3]] word by word, its offsets counted from behind the length |
| `CompactArray.ElementInRange` | libsolidity/codegen/YulUtilFunctions.cpp:2709-2765 | whatever a slot holds, what is encoded of an item is in range, but for enums |
| `CompactArray.KeptBack` | libsolidity/codegen/YulUtilFunctions.cpp:2725-2765 | a word in range is recovered from the bytes that storage keeps of it, by sign extension or shifting |
| `CompactArray.PackedAt` | libsolidity/codegen/YulUtilFunctions.cpp:2709-2723 | item i of a slot packed from its lowest byte on is what was kept of word i |
| `CompactArray.PackedElement` | libsolidity/codegen/ABIFunctions.cpp:798 | what is encoded of item i of a slot that holds words in range is word i, whatever else the slot holds |
| `CompactArray.PackedItems` | libsolidity/codegen/ABIFunctions.cpp:712-801 | the items of storage that holds an array, each slot as many words as fit, are the words of the array |
| `CompactArray.FullSlots` | libsolidity/codegen/ABIFunctions.cpp:732-744 | the loop emits the items of all full slots once, in order, reading each slot once |
| `CompactArray.Spill` | libsolidity/codegen/ABIFunctions.cpp:745-755 | the guarded items emit exactly the remaining elements |
| `CompactArray.EncodeCompact` | libsolidity/codegen/ABIFunctions.cpp:712-801 | writes exactly the encoding of the words that storage holds in packed form, for every storage, and reads consecutive slots |
| `CompactArray.SlotsReadAreStorageSize` | libsolidity/ast/Types.cpp:1715-1733 | a static array's encoder reads as many slots as `storageSize` says |
| `StorageLayout.ComputeOffsets` | libsolidity/ast/Types.cpp:106-138 | computes the greedy places and the size; the assertion fires exactly if the size does not fit |
| `StorageLayout.PackingIsSafe` | libsolidity/ast/Types.cpp:106-138 | no overlap, no small value across slots, large types on whole slots, all within the reported size |
| `StorageLayout.StaysAhead` | libsolidity/ast/Types.cpp:106-138 | greedy packing is ahead of every valid layout at every variable |
| `StorageLayout.PackingIsOptimal` | libsolidity/ast/Types.cpp:106-138 | no valid layout in the same order uses fewer slots |
| `StorageLayout.AppendingIsStable` | libsolidity/ast/Types.cpp:2017-2035 | appending variables moves none before them, so a contract keeps its base's layout |
| `StorageLayout.SizeWithinBound` | libsolidity/ast/Types.cpp:1707-1733 | `storageSize` is at most `storageSizeUpperBound` |
| `StorageLayout.BoundedIsChecked` | libsolidity/ast/Types.cpp:2164-2175 | a type with its bound below 2^256 trips no "too large for storage" assertion at any depth |
| `StorageLayout.AcceptedIsChecked` | libsolidity/ast/Types.cpp:1625-1671 | nor does any type accepted by `validForLocation` |
| `StorageLayout.ArrayIsPacked` | libsolidity/ast/Types.cpp:1715-1733 | a static array takes as many slots as a struct with its elements as members |
| `RationalTypes.IntegerTypeIsNarrowest` | libsolidity/ast/Types.cpp:1129-1143 | there is no integer type exactly for numbers out of range; otherwise it is the narrowest of its sign |
| `RationalTypes.ComputeFixedPointType` | libsolidity/ast/Types.cpp:1145-1181 | the loop computes the type that the lemmas below are about |
| `RationalTypes.FixedPointTypeExists` | libsolidity/ast/Types.cpp:1145-1181 | a literal has a fixed-point type if and only if its value is in range |
| `RationalTypes.FixedPointTypeIsNarrowest` | libsolidity/ast/Types.cpp:1145-1181 | the digits are exact, 80, or as many as the range allows, and no fewer are exact; the scaled value fits its width and no narrower one |
| `RationalTypes.LiteralRepresents` | libsolidity/ast/Types.cpp:1092-1119 | the word stands for the scaled value truncated toward zero; no assertion fires |
| `RationalTypes.ShiftedIsTruncation` | libsolidity/ast/Types.cpp:1107 | truncation loses less than one unit, toward zero |
| `RationalTypes.IntegerLiteral` | libsolidity/ast/Types.cpp:1092-1119 | the word of an integer literal stands for the integer, exactly where it has a type |
| `StructRecursion.Checker.Visit` | libsolidity/analysis/DeclarationTypeChecker.cpp:61-97 | a visit ends, keeps all marks right and reports to the surrounding walk exactly whether the struct is recursive |
| `StructRecursion.Checker.VisitMembers` | libsolidity/analysis/DeclarationTypeChecker.cpp:82-90 | all structs referred to are marked; a recursive child means that a cycle is reachable, none that all are marked not recursive |
| `StructRecursion.Checker.VisitMember` | libsolidity/analysis/DeclarationTypeChecker.cpp:135-140 | the flag ends up set exactly if a struct the member refers to is marked recursive |
| `StructRecursion.Checker.VisitAll` | libsolidity/analysis/DeclarationTypeChecker.cpp:61-97 | afterwards a struct is marked recursive if and only if it can reach a cycle, and everything reachable is marked |
| `StructRecursion.UnmarkedIsAcyclic` | libsolidity/analysis/DeclarationTypeChecker.cpp:92-94 | structs marked not recursive cannot reach a cycle |
| `StructRecursion.MarksAreExact` | libsolidity/analysis/DeclarationTypeChecker.cpp:92-97 | once no walk is open all marks are exact and closed under references |
| `Blake2b.ScheduleRow` | libsolutil/Blake2bRef.cpp:16-30 | the twelve rows are the ten of section 2.7 of RFC 7693, the first two repeated |
| `Blake2b.MixInPlace` | libsolutil/Blake2bRef.cpp:138-148 | the macro G computes the mixing function of section 3.1 of RFC 7693 on its four words |
| `Blake2b.RoundInPlace` | libsolutil/Blake2bRef.cpp:150-160 | the macro ROUND computes a round |
| `Blake2b.Compressed` | libsolutil/Blake2bRef.cpp:162-201 | compression computes F of section 3.2 of RFC 7693 |
| `Blake2b.CounterWraps` | libsolutil/Blake2bRef.cpp:51-55 | only the counter modulo 2^128 matters |
| `Blake2b.ChainPrefix` | libsolutil/Blake2bRef.cpp:206-231 | the state after k blocks does not depend on what follows them |
| `Blake2b.Context.IncrementCounter` | libsolutil/Blake2bRef.cpp:51-55 | the two-word counter grows modulo 2^128, with the carry |
| `Blake2b.Context.Update` | libsolutil/Blake2bRef.cpp:206-231 | the state depends only on the concatenation of everything absorbed, the last block being held back |
| `Blake2b.Context.Final` | libsolutil/Blake2bRef.cpp:233-255 | returns the digest of everything absorbed; a second call or a short buffer fails and changes nothing |
| `Blake2b.Context.InitParam` | libsolutil/Blake2bRef.cpp:66-79 | starts from the state that section 3.3 of RFC 7693 prescribes |
| `Blake2b.Context.Init` | libsolutil/Blake2bRef.cpp:83-102 | succeeds exactly for lengths 1 to 64 |
| `Blake2b.Context.InitKey` | libsolutil/Blake2bRef.cpp:105-136 | the padded key becomes the first block absorbed |
| `Blake2b.Hash` | libsolutil/Blake2bRef.cpp:258-285 | the one-shot function is the digest of RFC 7693, -1 exactly for bad lengths |
| `Blake2b.HashPieces` | libsolutil/Blake2bRef.cpp:206-255 | however the message is cut into updates, the digest is the one of section 3.3 of RFC 7693 |
| `Blake2bVector.DigestOfAbc` | libsolutil/Blake2bRef.cpp:258-285 | the digest of "abc" is the 64 bytes printed in Appendix A of RFC 7693 |
| `Blake2bKeyed.KeyedDigest` | libsolutil/Blake2bRef.cpp:258-285 | the digest of the bytes 0 to 127 under the key of the bytes 0 to 63, two blocks with sixteen different words, is the published one |
| `SourceMap.EmitEntry` | libevmasm/AssemblyItem.cpp:334-381 | the nested conditions write exactly the fields up to the last changed one, empty where unchanged |
| `SourceMap.DeltaUpdates` | libevmasm/AssemblyItem.cpp:334-381 | decompressing one entry against the previous one recovers it |
| `SourceMap.FirstNotEmpty` | libevmasm/AssemblyItem.cpp:312-321 | the first entry is never empty |
| `SourceMap.MappingDecompresses` | libevmasm/AssemblyItem.cpp:305-392 | decompressing the joined entries recovers all of them |
| `SourceMap.DeltaCompressed` | libevmasm/AssemblyItem.cpp:334-381 | a field is written if and only if it changed, and no empty field ends an entry but that of an unchanged one |
| `SourceMap.ComputeSourceMapping` | libevmasm/AssemblyItem.cpp:305-392 | the output decompresses to one entry per item with its start, its length or -1, the index of its source or -1, the letter of its jump type and its modifier depth; fields that did not change are not written |
| `SourceMap.ExampleMapping` | libevmasm/AssemblyItem.cpp:305-392 | the mapping of six items, character by character |
| `Functionalizer.Printer.Flush` | libevmasm/Assembly.cpp:142-147 | everything pending is printed in order and nothing is lost |
| `Functionalizer.Printer.Feed` | libevmasm/Assembly.cpp:96-140 | with this item too, the printed and pending texts are those of expression trees that linearise to the items fed so far, each with its arguments if they were pending, and as many expressions are pending as the items alone say |
| `Functionalizer.Printer.Locate` | libevmasm/Assembly.cpp:98-103 | a new location flushes what is pending and is printed, unless it is in the utility file |
| `Functionalizer.Printer.PushExpression` | libevmasm/Assembly.cpp:124-139 | an item that finds its arguments takes them from the pending expressions, and nothing stays pending unless it returns one value |
| `Functionalizer.Printer.PopArguments` | libevmasm/Assembly.cpp:124-135 | the text is that of the item applied to the last pending expressions, the latest first |
| `Functionalizer.TakeArguments` | libevmasm/Assembly.cpp:124-139 | replacing the last pending expressions by one that takes them as arguments keeps the order of items and the argument counts |
| `Functionalizer.HeightIsBalance` | libevmasm/Assembly.cpp:107-111 | as many expressions are pending as results were returned and not taken since the last break |
| `Functionalizer.BreaksExactly` | libevmasm/Assembly.cpp:107-111 | nothing is pending exactly at debug infos, at new locations, and behind items that cannot be functional, do not return one value or lack arguments |
| `Functionalizer.AssemblyStream` | libevmasm/Assembly.cpp:175-192 | the lines are those of expressions that linearise to the items, item k with all its arguments if and only if it can be functional, returns at most one value and finds them pending; comments come before the expression they belong to, and a line ends at every break |
| `Functionalizer.TreesUnique` | libevmasm/Assembly.cpp:124-139 | the items and their numbers of arguments determine the expressions |
| `Functionalizer.PrintsOnce` | libevmasm/Assembly.cpp:96-192 | the items and debug infos determine all lines |
| `Functionalizer.SampleOutput` | libevmasm/Assembly.cpp:96-192 | the lines of seven items with a tag, nested arguments, a duplication and a lack of arguments |
| `Functionalizer.LegibleText` | libevmasm/AssemblyItem.cpp:160-239 | the text of every kind of item is plain, or a reserved name with something plain in parentheses and then without printed arguments |
| `Functionalizer.ReadTree` | libevmasm/Assembly.cpp:124-135 | an expression of such texts can be read in one way only |
| `Functionalizer.LinesDetermineItems` | libevmasm/Assembly.cpp:96-147 | two item lists printed as the same lines have the same item texts in the same order |

## Left out

- Assembler.Assemble: sizes are unbounded numbers; the original's 32-bit `unsigned` sizes wrap beyond 4 GiB, and the object cached by an `assemble` that threw half-way is not modelled.
- Assembler.PlaceTag: a tag number beyond the tag table is a failure here and an out-of-range access of a vector there; tags are numbered below 2^64, as the counter that hands them out guarantees.
- AssemblyPlacement.NothingIsCut: assumes the conditions of the original's reservation; `AssemblyPlacement.PushedExactlyIfFits` has the exact condition. The same holds for `AssemblyPlacement.RoomForAll`.
- AssemblyTheorems.AssembledDisassembles: assumes that no operation is itself a push; `DisassemblesExactly` and `ObjectDisassemblesExactly` give the exact conditions.
- AssemblyTheorems.OwnJumpIsValid: assumes that no operation before the definition of the target is itself a push, which `AssemblyLimits.RawPushSwallowsTarget` shows to matter; `AssemblyTheorems.TagIsDestinationExactly` gives the exact condition. The same holds for `AssemblyTheorems.ForeignJumpIsValid`.
- AbiEncoder.EncodeThenDecode: encodings under 2^64 bytes at addresses that do not wrap, static array lengths of at least 1, no empty structs; values come from outside the memory written to, so aliasing of source and target is not modelled.
- AbiDecoder.TupleDecodeUndoesEncoding: the memory allocator, and so its panic when the free-memory pointer is exhausted, is not modelled; the check of allocation sizes is.
- AbiDecoder.DecodedIsTyped: does not say which malformed inputs are rejected; `AbiStatic.DecodesExactly` does for statically encoded types. Dynamically encoded values have many encodings that are accepted; `AbiDecoder.PlacedDecodes` says which of them have to be, not that there are no others.
- AbiOverread.StaysInsideExactly: for data and ends up to 2^254, types whose sizes fit 32 bits, whose words admit zero (no enum without members) and that have fewer than 2^64 levels.
- AbiEncoder.Memory.Encode: enums out of range, at which the generated code panics, are excluded; sizes that the generator computes in 32-bit `unsigned` are unbounded here.
- CompactArray.EncodeCompact: enums in storage that are out of range, at which the generated code panics, are excluded; byte arrays in storage are not modelled.
- Functionalizer.AssemblyStream: output is a sequence of lines; the text of comments and the prefix of lines are abbreviated.
- Functionalizer.LinesDetermineItems: recovers texts, which do not tell a PushString from a PushData of the same number; items for which `toAssemblyText` throws are not modelled.
- SourceMap.ComputeSourceMapping: modifier depths and source indices are recovered as 32-bit `int`, as the original converts them; overflow of end minus start is not modelled.
- Linkers.LinkersAgree: placeholders of references collide with none of the given libraries but their own; removal of hint lines is not modelled.
- Linkers.Link: windows are disjoint and inside the code, which `AssembledIsApart` proves of assembled objects; the same holds for `Linkers.ToHex`.
- Blake2b.Context.Update: null pointers, the `last_node` flag (never set by this code) and the clearing of secrets are not modelled; array writes through pointers are sequence or array updates.
- StructRecursion.Checker.VisitAll: the fatal error for directly recursive structs, raised by a cycle detector after the marking, is not modelled.
- SubPaths.Registry.NewSub: fewer than 2^64 numbers in use, also in `SubPaths.EncodeThenDecode`.
- Names of immutables and debug information are not modelled; hashes are opaque keys.
- The optimiser passes run before assembling, Yul code, `YulUtilFunctions` beyond the helpers cited, and AST plumbing: no hard invariant of their own here, or code outside this repository's core.
- Packed and in-place ABI encoding, calldata types and slices, storage sources other than packed arrays, string literals and library encoding.
- Option parsing, file access, JSON output and checksum helpers: input and output only.
