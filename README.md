# PV performer parameter decoder

This project models how MikuMikuLibrary reads a PV performer parameter file (`pv_performer`,
the "PVPP" section) and proves properties of that model in Dafny. The file describes, for each
character slot of a PV:

- glitter and auth3d song effects;
- the entries of each character: effect entries, motions, auth3d entries, attached items and
  glitters.

Decoding is offset-driven. Each record decoder works through a shared cursor. It reads its
fixed-width fields in file order and keeps counts and offsets in locals. It then calls
`ReadAtOffset(offset, body)`, which works as follows:

- an offset of 0 means "absent", and the body is skipped;
- any other offset saves the cursor, seeks there, runs the body and seeks back.

The body either reads one nested record or runs a counted loop that appends `count` records
to a list.

The model has three layers.

- **The reader** (`Cursor.Reader`) is a class with an immutable `Buffer` and a mutable `pos`:
  - fixed-width reads advance `pos` by their width, or fail with `OutOfBounds`;
  - `ReadOffset` reads an unsigned W-byte offset, with W = 4 or 8;
  - `SeekCurrent` moves `pos`;
  - `ReadString` and `ReadStringAtOffset` scan for a terminating zero byte (an assumption for
    the parameterless `ReadString()`, see "Left out").
- **The decoders** (`Decoders`) are one method per `Read` of the source, with the same sequence
  of reads. Each `ReadAtOffset` becomes a `FollowX` method: `EnterOffset`, the body, then
  `RestorePosition`. Each counted `for` loop becomes a `ReadXs` method with a `while` loop.
  List capacities go through `Format.SetCapacity`. Every method is proved to agree with a pure
  layout function of the buffer and the start position. On success, the method and the
  function give the same value and the same final cursor; on failure, the same error.
- **The layouts** (`Format`, built on `Layout`) describe each record at an absolute position:
  - which bytes each field comes from;
  - where each nested body starts (`Follow`, the pure `ReadAtOffset`);
  - how a counted loop lays out its records (`Array`).

  `FormatFacts` proves what the source promises about these layouts: exact widths, element
  positions, counts, defaults for absent offsets, field and error order, and enum bytes.

The records are datatypes (`Records`). The constructor defaults of the source are the
constants `NewStringWithId`, `NewGlitterEntry`, …, `NewPVPerformerParameter`, and each decoder
starts from its constant. A null string is `None`, and a name is the byte sequence before its
terminator. The three `sbyte` enums are `SByte` values with named constants, because a cast in
the source keeps any byte value, named or not. Some fields are read unconditionally, such as
`ItemType`. For those, the default (`ItemNone` for `ItemType`) is only the value before `Read`,
because a successful decode always overwrites it.

## Model

All source cells refer to `MikuMikuLibrary/Databases/PVPerformerParameter.cs`.

| member | source | states |
|---|---|---|
| Cursor.ScanNullTerminated | MikuMikuLibrary/Databases/PVPerformerParameter.cs:48 | the scanning loop returns exactly the bytes before the first zero from `start`, or MalformedString when no zero follows |
| Cursor.Reader.ReadOffset | MikuMikuLibrary/Databases/PVPerformerParameter.cs:46 | an offset is the unsigned W-byte word at the cursor, and the cursor advances by W; past the end it fails with OutOfBounds |
| Cursor.Reader.ReadStringAtOffset | MikuMikuLibrary/Databases/PVPerformerParameter.cs:48 | offset 0 gives a null string, an offset past the end gives InvalidOffset, otherwise the terminated bytes at the offset; the cursor does not move |
| Cursor.Reader.EnterOffset | MikuMikuLibrary/Databases/PVPerformerParameter.cs:96 | the first half of ReadAtOffset: checks the offset, gives back the saved position and moves the cursor to the offset, or fails with InvalidOffset |
| Cursor.Reader.ReadSByte | MikuMikuLibrary/Databases/PVPerformerParameter.cs:87 | a byte read as `sbyte`: the byte at the cursor and the cursor one further, or OutOfBounds at the end |
| Cursor.Reader.ReadInt32 | MikuMikuLibrary/Databases/PVPerformerParameter.cs:259 | the signed 4-byte word at the cursor in the buffer's byte order and the cursor 4 further, or OutOfBounds |
| Cursor.Reader.ReadUInt32 | MikuMikuLibrary/Databases/PVPerformerParameter.cs:402 | the unsigned 4-byte word at the cursor and the cursor 4 further, or OutOfBounds |
| Cursor.Reader.ReadSingle | MikuMikuLibrary/Databases/PVPerformerParameter.cs:262-265 | the raw 4-byte word of a float at the cursor and the cursor 4 further, or OutOfBounds |
| Cursor.Reader.ReadInt64 | MikuMikuLibrary/Databases/PVPerformerParameter.cs:47 | the signed 8-byte word at the cursor and the cursor 8 further, or OutOfBounds |
| Cursor.Reader.SeekCurrent | MikuMikuLibrary/Databases/PVPerformerParameter.cs:93 | the cursor moves forward by exactly `count`, even past the end, and nothing is read |
| Cursor.Reader.ReadString | MikuMikuLibrary/Databases/PVPerformerParameter.cs:276 | the zero-terminated string at the cursor, with the cursor just past its terminator, or MalformedString when no zero follows |
| Cursor.Reader.RestorePosition | MikuMikuLibrary/Databases/PVPerformerParameter.cs:96-104 | the second half of ReadAtOffset: the cursor is back at the saved position |
| Layout.CStringFacts | MikuMikuLibrary/Databases/PVPerformerParameter.cs:48 | a decoded string is the run of non-zero bytes at its position and is followed by a zero; a string with no zero after it fails with MalformedString |
| Layout.ArrayLaidOut | MikuMikuLibrary/Databases/PVPerformerParameter.cs:98-103 | a counted loop of fixed-width records yields exactly max(count, 0) records, record i decoded at p + i*width, and ends at p + count*width |
| Layout.ArrayDefined | MikuMikuLibrary/Databases/PVPerformerParameter.cs:98-103 | a counted loop succeeds when each of its `count` records decodes at its stride position |
| Layout.ArrayFirstError | MikuMikuLibrary/Databases/PVPerformerParameter.cs:98-103 | the first record that fails to decode decides the error of the whole loop |
| Decoders.ReadStringWithId | MikuMikuLibrary/Databases/PVPerformerParameter.cs:44-49 | StringWithId.Read agrees with its layout: offset, then id, then the name fetched at the offset; on success the cursor ends W+8 bytes after the start |
| Decoders.ReadStringWithIds | MikuMikuLibrary/Databases/PVPerformerParameter.cs:98-103 | the auth3d loop appends `count` StringWithIds read one after another, in file order |
| Decoders.FollowStringWithId | MikuMikuLibrary/Databases/PVPerformerParameter.cs:136-141 | ReadAtOffset with one StringWithId as its body (also lines 179-191 and 267-272): an absent offset keeps the current value, otherwise the StringWithId at the offset; on success the cursor is back where it was |
| Decoders.FollowStringWithIds | MikuMikuLibrary/Databases/PVPerformerParameter.cs:96-104 | ReadAtOffset with the auth3d loop: an absent offset keeps the list, otherwise the loop at the offset; on success the cursor is back where it was |
| Decoders.ReadGlitterEntry | MikuMikuLibrary/Databases/PVPerformerParameter.cs:64-69 | GlitterEntry.Read agrees with its layout: the first string is fetched before the second offset is read, then the unk byte; on success the cursor ends 2W+1 bytes after the start |
| Decoders.ReadGlitterEntries | MikuMikuLibrary/Databases/PVPerformerParameter.cs:109-114 | the glitter loop appends `count` GlitterEntries read one after another, in file order, and fails with the first record's error |
| Decoders.FollowGlitterEntries | MikuMikuLibrary/Databases/PVPerformerParameter.cs:107-115 | ReadAtOffset with the glitter loop (also lines 364-371): an absent offset keeps the list, otherwise the loop at the offset; on success the cursor is back where it was |
| Decoders.ReadSongEffect | MikuMikuLibrary/Databases/PVPerformerParameter.cs:85-116 | SongEffect.Read agrees with its layout: two counts, each checked by Capacity, then the performer byte, a 5-byte skip and the two ReadAtOffset loops; on success the cursor ends 8+2W bytes after the start |
| Decoders.ReadSongEffects | MikuMikuLibrary/Databases/PVPerformerParameter.cs:423-428 | the section's loop appends `count` SongEffects read one after another, in file order |
| Decoders.FollowSongEffects | MikuMikuLibrary/Databases/PVPerformerParameter.cs:421-429 | ReadAtOffset with the song-effect loop: an absent offset keeps the list, otherwise the loop at the offset; on success the cursor is back where it was |
| Decoders.ReadMotionEntry | MikuMikuLibrary/Databases/PVPerformerParameter.cs:131-142 | MotionEntry.Read agrees with its layout: two offsets, then the name record at the first one; on success the cursor ends 2W bytes after the start |
| Decoders.ReadMotionEntries | MikuMikuLibrary/Databases/PVPerformerParameter.cs:333-338 | the motion loop appends `count` MotionEntries read one after another, in file order |
| Decoders.FollowMotionEntries | MikuMikuLibrary/Databases/PVPerformerParameter.cs:331-339 | ReadAtOffset with the motion loop: an absent offset keeps the list, otherwise the loop at the offset; on success the cursor is back where it was |
| Decoders.ReadCharaEffAuth3dHeader | MikuMikuLibrary/Databases/PVPerformerParameter.cs:168-177 | the eight bytes and the two offsets of a CharaEffAuth3d, in read order, as its fixed-part layout gives them |
| Decoders.ReadCharaEffAuth3d | MikuMikuLibrary/Databases/PVPerformerParameter.cs:166-192 | CharaEffAuth3d.Read agrees with its layout: eight bytes, two offsets, then the two StringWithIds at them; on success the cursor ends 8+2W bytes after the start |
| Decoders.ReadCharaEffAuth3ds | MikuMikuLibrary/Databases/PVPerformerParameter.cs:222-227 | the CharaEffEntry loop appends `count` CharaEffAuth3ds read one after another, in file order |
| Decoders.FollowCharaEffAuth3ds | MikuMikuLibrary/Databases/PVPerformerParameter.cs:220-228 | ReadAtOffset with the CharaEffAuth3d loop: an absent offset keeps the list, otherwise the loop at the offset; on success the cursor is back where it was |
| Decoders.ReadCharaEffEntry | MikuMikuLibrary/Databases/PVPerformerParameter.cs:213-229 | CharaEffEntry.Read agrees with its layout: character, count and its Capacity, performer, offset, then the auth3d loop; on success the cursor ends 3+W bytes after the start |
| Decoders.ReadCharaEffList | MikuMikuLibrary/Databases/PVPerformerParameter.cs:323-327 | the chr-eff body: one CharaEffEntry read at the cursor and added to the end of the list |
| Decoders.FollowCharaEffList | MikuMikuLibrary/Databases/PVPerformerParameter.cs:323-328 | ReadAtOffset with the chr-eff body: an absent offset keeps the list, otherwise the list plus the entry at the offset; on success the cursor is back where it was |
| Decoders.ReadItemEntry | MikuMikuLibrary/Databases/PVPerformerParameter.cs:253-278 | ItemEntry.Read agrees with its layout: all fixed fields first, then the auth3d record and the node string; on success the cursor ends 24+2W bytes after the start |
| Decoders.FollowNode | MikuMikuLibrary/Databases/PVPerformerParameter.cs:274-277 | ReadAtOffset with ReadString as its body: the node name at the offset, or the current one when absent; the cursor comes back |
| Decoders.ReadItemEntries | MikuMikuLibrary/Databases/PVPerformerParameter.cs:355-360 | the item loop appends `count` ItemEntries read one after another, in file order |
| Decoders.FollowItemEntries | MikuMikuLibrary/Databases/PVPerformerParameter.cs:353-361 | ReadAtOffset with the item loop: an absent offset keeps the list, otherwise the loop at the offset; on success the cursor is back where it was |
| Decoders.ReadCharaEntryCounts | MikuMikuLibrary/Databases/PVPerformerParameter.cs:306-313 | the eight leading bytes of a CharaEntry in read order: the counts at 2, 3, 4 and 6 are kept, while u00, u01, u05 and u07 are consumed and dropped |
| Decoders.ReadCharaEntryOffsets | MikuMikuLibrary/Databases/PVPerformerParameter.cs:315-320 | the six offsets in read order; the first five are kept and o30 is consumed and dropped |
| Decoders.ReadCharaEntryHeader | MikuMikuLibrary/Databases/PVPerformerParameter.cs:306-320 | the 8 + 6W-byte fixed part: the bytes then the offsets, giving the counts and offsets CharaEntry.Read keeps in locals |
| Decoders.ReadCharaEntry | MikuMikuLibrary/Databases/PVPerformerParameter.cs:304-373 | CharaEntry.Read agrees with its layout: the header, then the chr-eff record and the four loops, with no Capacity check; on success the cursor ends 8+6W bytes after the start |
| Decoders.ReadCharaEntries | MikuMikuLibrary/Databases/PVPerformerParameter.cs:434-439 | the root's loop appends `count` CharaEntries read one after another, in file order |
| Decoders.FollowCharaEntries | MikuMikuLibrary/Databases/PVPerformerParameter.cs:432-440 | ReadAtOffset with the root's loop: an absent offset keeps the list, otherwise the loop at the offset; on success the cursor is back where it was |
| Decoders.ReadSongEffectSection | MikuMikuLibrary/Databases/PVPerformerParameter.cs:412-430 | the song-effect section body agrees with its layout: u40, the count and its Capacity, u42, u43, u44_47 and the nested song-effect loop; on success the cursor ends 8+W bytes after the start |
| Decoders.FollowSongEffectSection | MikuMikuLibrary/Databases/PVPerformerParameter.cs:412-430 | ReadAtOffset with the section body: an absent offset keeps the document, otherwise the section decoded at the offset; on success the cursor is back where it was |
| Decoders.ReadHeader | MikuMikuLibrary/Databases/PVPerformerParameter.cs:402-410 | the root's fixed part in read order: u20, the chara count with its Capacity check, u25, u26, u27 and three offsets, the last read and dropped |
| Decoders.ReadPVPerformerParameter | MikuMikuLibrary/Databases/PVPerformerParameter.cs:400-441 | the root Read agrees with its layout: header, Capacity of the chara count, the section, then the chara-entry loop; unkOffset is read and dropped; on success the cursor ends 8+3W bytes after the start |
| FormatFacts.StringWithIdConsumes | MikuMikuLibrary/Databases/PVPerformerParameter.cs:44-49 | a StringWithId consumes exactly W+8 bytes; its name fetch does not move the cursor |
| FormatFacts.GlitterEntryConsumes | MikuMikuLibrary/Databases/PVPerformerParameter.cs:64-69 | a GlitterEntry consumes exactly 2W+1 bytes |
| FormatFacts.SongEffectConsumes | MikuMikuLibrary/Databases/PVPerformerParameter.cs:85-116 | a SongEffect consumes exactly 8+2W bytes, however far its nested loops reach |
| FormatFacts.MotionEntryConsumes | MikuMikuLibrary/Databases/PVPerformerParameter.cs:131-142 | a MotionEntry consumes exactly 2W bytes |
| FormatFacts.CharaEffAuth3dConsumes | MikuMikuLibrary/Databases/PVPerformerParameter.cs:166-192 | a CharaEffAuth3d consumes exactly 8+2W bytes |
| FormatFacts.CharaEffEntryConsumes | MikuMikuLibrary/Databases/PVPerformerParameter.cs:213-229 | a CharaEffEntry consumes exactly 3+W bytes |
| FormatFacts.ItemEntryConsumes | MikuMikuLibrary/Databases/PVPerformerParameter.cs:253-278 | an ItemEntry consumes exactly 24+2W bytes |
| FormatFacts.CharaEntryConsumes | MikuMikuLibrary/Databases/PVPerformerParameter.cs:304-373 | a CharaEntry consumes exactly 8+6W bytes |
| FormatFacts.PVPerformerParameterConsumes | MikuMikuLibrary/Databases/PVPerformerParameter.cs:400-441 | the root consumes exactly its 8+3W-byte header |
| FormatFacts.SongEffectSectionConsumes | MikuMikuLibrary/Databases/PVPerformerParameter.cs:412-430 | the song-effect section consumes exactly 8+W bytes |
| FormatFacts.StringWithIdName | MikuMikuLibrary/Databases/PVPerformerParameter.cs:44-49 | the id is the int64 after the offset; the name is null exactly when the offset is 0, otherwise the zero-terminated run of non-zero bytes at the offset |
| FormatFacts.GlitterEntryStrings | MikuMikuLibrary/Databases/PVPerformerParameter.cs:64-76 | each string is read at its own offset; an absent second offset keeps the null default of UnkString; unk is the byte after the offsets |
| FormatFacts.SongEffectAuth3ds | MikuMikuLibrary/Databases/PVPerformerParameter.cs:87-104 | the auth3d count is non-negative; an absent offset leaves the list empty, otherwise it holds exactly `count` entries, entry i at offset + i*(W+8) |
| FormatFacts.SongEffectGlitters | MikuMikuLibrary/Databases/PVPerformerParameter.cs:89-115 | the glitter count is non-negative; an absent offset leaves the list empty, otherwise it holds exactly `count` entries, entry i at offset + i*(2W+1) |
| FormatFacts.SongEffectOrder | MikuMikuLibrary/Databases/PVPerformerParameter.cs:87-107 | a negative auth3d count, then a negative glitter count, fails with NegativeCapacity; the auth3d dereference precedes the glitter offset read, so its error wins; an auth3d offset past the end gives InvalidOffset |
| FormatFacts.MotionEntryFields | MikuMikuLibrary/Databases/PVPerformerParameter.cs:131-148 | NextMotionOffset is the second offset as read; an absent name offset leaves MotionName at ("", 0), any other gives the StringWithId at the offset |
| FormatFacts.MotionEntryNextNotFollowed | MikuMikuLibrary/Databases/PVPerformerParameter.cs:131-148 | NextMotionOffset is never followed: a MotionEntry whose fixed part is in the buffer decodes exactly when its name does, whatever the second offset holds; with an absent name it decodes to (("", 0), the second offset) |
| FormatFacts.CharaEffAuth3dEntries | MikuMikuLibrary/Databases/PVPerformerParameter.cs:166-206 | u00 to u07 are the eight leading bytes in order; an absent offset leaves that StringWithId at ("", 0), a present one gives the StringWithId decoded at it |
| FormatFacts.CharaEffEntryArray | MikuMikuLibrary/Databases/PVPerformerParameter.cs:213-228 | the count is non-negative; an absent offset leaves the list empty, otherwise it holds exactly `count` entries at stride 8+2W |
| FormatFacts.CharaEffEntryCapacity | MikuMikuLibrary/Databases/PVPerformerParameter.cs:216-217 | a negative auth3d count fails with NegativeCapacity |
| FormatFacts.ItemEntryFields | MikuMikuLibrary/Databases/PVPerformerParameter.cs:253-293 | the type, three bytes, int32, two offsets and four float words sit at their read positions; absent offsets leave Auth3dEntry at ("", 0) and Node at ""; a present auth3d offset gives the StringWithId there and a present node offset the zero-terminated string there |
| FormatFacts.ItemEntryOrder | MikuMikuLibrary/Databases/PVPerformerParameter.cs:255-277 | both offsets are followed only after every fixed field is read: a truncated fixed part fails with OutOfBounds whatever the offsets hold |
| FormatFacts.CharaEntryEffects | MikuMikuLibrary/Databases/PVPerformerParameter.cs:322-328 | CharaEffEntries is empty when chrEffOffset is 0 and otherwise holds exactly the one entry decoded at that offset |
| FormatFacts.CharaEntryArrays | MikuMikuLibrary/Databases/PVPerformerParameter.cs:306-372 | the motion, auth3d, item and glitter lists hold the count's records from bytes 2, 3, 4 and 6, at the second to fifth offsets with their widths |
| FormatFacts.CharaEntryNegativeCounts | MikuMikuLibrary/Databases/PVPerformerParameter.cs:308-372 | in a decoded CharaEntry, a list whose count is negative is empty |
| FormatFacts.CharaEntryNegativeCountsDecode | MikuMikuLibrary/Databases/PVPerformerParameter.cs:308-372 | with no Capacity check, negative counts are no failure: with the four arrays' offsets inside the buffer and no chr-eff entry, the CharaEntry decodes to empty lists |
| FormatFacts.CharaEntryHeaderOffsets | MikuMikuLibrary/Databases/PVPerformerParameter.cs:315-319 | a fixed part in the buffer always decodes, with the five followed offsets at 8, 8+W, …, 8+4W |
| FormatFacts.CharaEntryAbsentOffsets | MikuMikuLibrary/Databases/PVPerformerParameter.cs:315-382 | with the five followed offsets absent, a CharaEntry decodes to the constructor's empty lists and ends at 8+6W, whatever its counts and o30 hold |
| FormatFacts.SongEffectSectionArray | MikuMikuLibrary/Databases/PVPerformerParameter.cs:414-429 | the song-effect count is non-negative and the list holds exactly that many SongEffects at stride 8+2W; the fields outside the section are unchanged |
| FormatFacts.RootCharaEntries | MikuMikuLibrary/Databases/PVPerformerParameter.cs:403-440 | the chara count is non-negative; an absent offset leaves CharaEntries empty, otherwise it holds exactly `count` entries at stride 8+6W |
| FormatFacts.RootFields | MikuMikuLibrary/Databases/PVPerformerParameter.cs:402-452 | u20, u25, u26 and u27 are stored as read; an absent section offset leaves SongEffects empty and u40..u44_47 at zero |
| FormatFacts.RootAbsentOffsets | MikuMikuLibrary/Databases/PVPerformerParameter.cs:400-452 | with the header in the buffer, a non-negative chara count and both followed offsets absent, the root decodes to empty lists and the header's u20, u25, u26 and u27, whatever unkOffset holds |
| FormatFacts.RootSectionParts | MikuMikuLibrary/Databases/PVPerformerParameter.cs:412-430 | for a present section offset, the root's SongEffects, u40, u42, u43 and u44_47 are those the section body decodes at that offset |
| FormatFacts.RootSongEffects | MikuMikuLibrary/Databases/PVPerformerParameter.cs:412-430 | for a present section, u40, u42, u43 and u44_47 are the section's bytes, the count passes Capacity, and SongEffects holds exactly that many records at stride 8+2W, or none when the inner offset is absent |
| FormatFacts.RootCapacity | MikuMikuLibrary/Databases/PVPerformerParameter.cs:403-416 | a negative chara-entry count fails the root, and a negative song-effect count fails the section, with NegativeCapacity |
| FormatFacts.EnumsKeepTheirByte | MikuMikuLibrary/Databases/PVPerformerParameter.cs:7-37 | ParentId, BaseCharacter, ParentPerformerId and ItemType keep the byte they were cast from; the named "none" values are byte 0xFF |
| FormatFacts.SongEffectAnyParent | MikuMikuLibrary/Databases/PVPerformerParameter.cs:92 | every performer byte is accepted: a SongEffect with non-negative counts and absent offsets decodes, with ParentId the byte as read |
| FormatFacts.CharaEffEntryAnyEnum | MikuMikuLibrary/Databases/PVPerformerParameter.cs:215-218 | every character and performer byte is accepted: a CharaEffEntry with a non-negative count and an absent offset decodes, keeping both bytes |
| FormatFacts.ItemEntryAnyType | MikuMikuLibrary/Databases/PVPerformerParameter.cs:255 | every item-type byte is accepted: an ItemEntry with absent offsets decodes, with ItemType the byte as read |
| Bytes.SByteRoundTrip | MikuMikuLibrary/Databases/PVPerformerParameter.cs:92 | reading a byte as `sbyte` and back is the identity in both directions |

## Left out

- `EndianBinaryReader` is not part of this model. The reader's contract is assumed as follows:
  - offsets are unsigned W-byte integers used as absolute positions, with no base relocation;
  - `ReadAtOffset` and `ReadStringAtOffset` treat 0 as absent and fail with `InvalidOffset` for
    an offset at or past the end of the buffer. So an array whose count is zero or negative,
    at a non-zero offset outside the buffer, fails in the model, where a reader that only
    seeks would return an empty list;
  - `ReadStringAtOffset(0)` gives a null string, which is why `GlitterEntry.UnkString` keeps its
    null default;
  - `SeekCurrent` never fails, and a later read past the end fails instead;
  - the parameterless `ReadString()` at line 276 reads a null-terminated string, as
    `ReadString(StringBinaryFormat.NullTerminated)` does. A length-prefixed reading, as
    .NET's `BinaryReader.ReadString` does, is not modelled.
- The position after a failed read is not modelled: a failure aborts the whole decode.
- Decoding through `ReadAtOffset` is sequential, and the cursor is back at its saved position
  only on success; on failure the decode is abandoned.
- Offsets are stored relative to a base that the section wrapper sets. The model reads them as
  absolute positions, with the offset width W a parameter.
- Records do not all read their scalars, then their offsets, then dereference. The source
  interleaves them in two places, and the model follows the source:
  - `GlitterEntry` fetches its first string before reading its second offset (lines 66-67);
  - `SongEffect` dereferences the auth3d array before reading the glitter offset (lines 96-107).
- Assigning a negative count to `List.Capacity` throws (lines 88, 90, 217, 404 and 416), and
  the model fails with `NegativeCapacity` at those points. Non-negative capacities have no
  observable effect and are not modelled.
- `x`, `y`, `z` and `w` are kept as raw 32-bit words. Float semantics are out of scope.
- Strings are byte sequences, without text decoding.
- Records are values; the source's objects become datatypes filled in field by field. Object
  identity and aliasing of the source's lists are not modelled.
- `Write` is not modelled, because it only throws `NotImplementedException` (lines 443-446).
- `Flags` (line 387) and the section plumbing are not modelled.
- `MikuMikuLibrary/IO/Sections/Databases/PVPPSection.cs` is not part of this model: it is a tag
  wrapper with no decoding logic.
- The motion chain is not traversed, because the source stores `NextMotionOffset` without
  following it.
