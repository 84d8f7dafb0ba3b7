/** What each `Read` decodes, as functions of the buffer and the cursor position. A decode
    yields the record and the position just past its fixed part: nested records are reached
    through `Follow`, which leaves the cursor where it was. */
module Format {
  import opened Bytes
  import opened Results
  import opened Layout
  import opened Records

  // Fixed-part widths, in bytes; W is the offset width.

  function StringWithIdWidth(b: Buffer): nat { b.W() + 8 }
  function GlitterEntryWidth(b: Buffer): nat { 2 * b.W() + 1 }
  function SongEffectWidth(b: Buffer): nat { 8 + 2 * b.W() }
  function MotionEntryWidth(b: Buffer): nat { 2 * b.W() }
  function CharaEffAuth3dWidth(b: Buffer): nat { 8 + 2 * b.W() }
  function CharaEffEntryWidth(b: Buffer): nat { 3 + b.W() }
  function ItemEntryWidth(b: Buffer): nat { 24 + 2 * b.W() }
  function CharaEntryWidth(b: Buffer): nat { 8 + 6 * b.W() }
  function HeaderWidth(b: Buffer): nat { 8 + 3 * b.W() }
  function SongEffectSectionWidth(b: Buffer): nat { 8 + b.W() }

  /** `List.Capacity = count`, which .NET rejects for a negative count. */
  function SetCapacity(count: int): Outcome
  {
    if count < 0 then Fail(NegativeCapacity(count)) else Pass
  }

  // The decoders as bodies for Follow and Array.

  function StringWithIdAt(b: Buffer): nat -> Result<Step<StringWithId>>
  {
    (p: nat) => DecodeStringWithId(b, p)
  }

  function StringWithIdsAt(b: Buffer, count: int): nat -> Result<Step<seq<StringWithId>>>
  {
    (p: nat) => Array(StringWithIdAt(b), p, count)
  }

  function GlitterEntryAt(b: Buffer): nat -> Result<Step<GlitterEntry>>
  {
    (p: nat) => DecodeGlitterEntry(b, p)
  }

  function GlitterEntriesAt(b: Buffer, count: int): nat -> Result<Step<seq<GlitterEntry>>>
  {
    (p: nat) => Array(GlitterEntryAt(b), p, count)
  }

  function SongEffectAt(b: Buffer): nat -> Result<Step<SongEffect>>
  {
    (p: nat) => DecodeSongEffect(b, p)
  }

  function SongEffectsAt(b: Buffer, count: int): nat -> Result<Step<seq<SongEffect>>>
  {
    (p: nat) => Array(SongEffectAt(b), p, count)
  }

  function MotionEntryAt(b: Buffer): nat -> Result<Step<MotionEntry>>
  {
    (p: nat) => DecodeMotionEntry(b, p)
  }

  function MotionEntriesAt(b: Buffer, count: int): nat -> Result<Step<seq<MotionEntry>>>
  {
    (p: nat) => Array(MotionEntryAt(b), p, count)
  }

  function CharaEffAuth3dAt(b: Buffer): nat -> Result<Step<CharaEffAuth3d>>
  {
    (p: nat) => DecodeCharaEffAuth3d(b, p)
  }

  function CharaEffAuth3dsAt(b: Buffer, count: int): nat -> Result<Step<seq<CharaEffAuth3d>>>
  {
    (p: nat) => Array(CharaEffAuth3dAt(b), p, count)
  }

  /** The chr-eff body: one CharaEffEntry, added to `list`. */
  function CharaEffListAt(b: Buffer, list: seq<CharaEffEntry>): nat -> Result<Step<seq<CharaEffEntry>>>
  {
    (p: nat) => var e :- DecodeCharaEffEntry(b, p); Ok(Step(list + [e.val], e.next))
  }

  function ItemEntryAt(b: Buffer): nat -> Result<Step<ItemEntry>>
  {
    (p: nat) => DecodeItemEntry(b, p)
  }

  function ItemEntriesAt(b: Buffer, count: int): nat -> Result<Step<seq<ItemEntry>>>
  {
    (p: nat) => Array(ItemEntryAt(b), p, count)
  }

  function NodeAt(b: Buffer): nat -> Result<Step<seq<byte>>>
  {
    (p: nat) => StringField(b, p)
  }

  function CharaEntryAt(b: Buffer): nat -> Result<Step<CharaEntry>>
  {
    (p: nat) => DecodeCharaEntry(b, p)
  }

  function CharaEntriesAt(b: Buffer, count: int): nat -> Result<Step<seq<CharaEntry>>>
  {
    (p: nat) => Array(CharaEntryAt(b), p, count)
  }

  function SongEffectSectionAt(b: Buffer, doc: PVPerformerParameter): nat -> Result<Step<PVPerformerParameter>>
  {
    (p: nat) => DecodeSongEffectSection(b, p, doc)
  }

  // The record layouts. Each function says where a record's fields sit relative to its first
  // byte, which errors arise and in which order, and where the cursor is left: just past the
  // fixed part, however deep the bodies reached through offsets went. The methods in
  // `Decoders` read the same records one field at a time and are proved to agree.

  /** StringWithId: the name offset at 0 and the id at W, W + 8 bytes; the name is fetched
      from its offset once both have been read. */
  function DecodeStringWithId(b: Buffer, p: nat): Result<Step<StringWithId>>
  {
    if p + StringWithIdWidth(b) > |b.data| then Err(OutOfBounds)
    else
      var name :- StringAtOffset(b, OffsetAt(b, p));
      Ok(Step(NewStringWithId.(name := name, id := Int64At(b, p + b.W())), p + StringWithIdWidth(b)))
  }

  /** GlitterEntry: the name offset at 0, the second offset at W and the flag at 2W, 2W + 1
      bytes. Each offset is resolved before the next field is read. */
  function DecodeGlitterEntry(b: Buffer, p: nat): Result<Step<GlitterEntry>>
  {
    var w := b.W();
    if p + w > |b.data| then Err(OutOfBounds)
    else
      var name :- StringAtOffset(b, OffsetAt(b, p));
      if p + 2 * w > |b.data| then Err(OutOfBounds)
      else
        var unkString :- StringAtOffset(b, OffsetAt(b, p + w));
        if p + GlitterEntryWidth(b) > |b.data| then Err(OutOfBounds)
        else
          Ok(Step(NewGlitterEntry.(name := name, unkString := unkString, unk := SByteAt(b, p + 2 * w)),
                  p + GlitterEntryWidth(b)))
  }

  /** SongEffect: the auth3d count at 0 and the glitter count at 1 (each a capacity, checked
      as soon as it is read), the performer at 2, five unused bytes, the auth3d offset at 8
      and the glitter offset at 8 + W, 8 + 2W bytes. The auth3d array is decoded before the
      glitter offset is read. */
  function DecodeSongEffect(b: Buffer, p: nat): Result<Step<SongEffect>>
  {
    var w := b.W();
    if p + 1 > |b.data| then Err(OutOfBounds)
    else if SByteAt(b, p) < 0 then Err(NegativeCapacity(SByteAt(b, p)))
    else if p + 2 > |b.data| then Err(OutOfBounds)
    else if SByteAt(b, p + 1) < 0 then Err(NegativeCapacity(SByteAt(b, p + 1)))
    else if p + 8 + w > |b.data| then Err(OutOfBounds)
    else
      var auth3dEntries :- Follow(b, OffsetAt(b, p + 8), NewSongEffect.auth3dEntries,
                                  StringWithIdsAt(b, SByteAt(b, p)));
      if p + SongEffectWidth(b) > |b.data| then Err(OutOfBounds)
      else
        var glitterEntries :- Follow(b, OffsetAt(b, p + 8 + w), NewSongEffect.glitterEntries,
                                     GlitterEntriesAt(b, SByteAt(b, p + 1)));
        Ok(Step(NewSongEffect.(parentId := SByteAt(b, p + 2), auth3dEntries := auth3dEntries,
                               glitterEntries := glitterEntries),
                p + SongEffectWidth(b)))
  }

  /** MotionEntry: the name offset at 0 and the next-motion offset at W, 2W bytes. Only the
      first is followed; the second is kept as a number. */
  function DecodeMotionEntry(b: Buffer, p: nat): Result<Step<MotionEntry>>
  {
    if p + MotionEntryWidth(b) > |b.data| then Err(OutOfBounds)
    else
      var motionName :- Follow(b, OffsetAt(b, p), NewMotionEntry.motionName, StringWithIdAt(b));
      Ok(Step(NewMotionEntry.(motionName := motionName, nextMotionOffset := OffsetAt(b, p + b.W())),
              p + MotionEntryWidth(b)))
  }

  /** What CharaEffAuth3d.Read has read before it follows either offset: the eight bytes it
      stores and the two offsets it keeps in locals. */
  datatype CharaEffAuth3dHeader = CharaEffAuth3dHeader(
    u00: SByte, u01: SByte, u02: SByte, u03: SByte,
    u04: SByte, u05: SByte, u06: SByte, u07: SByte,
    entryOffset: nat, sourceOffset: nat)

  /** CharaEffAuth3d's fixed part, 8 + 2W bytes: eight bytes at 0..7, the entry offset at 8
      and the source offset at 8 + W. */
  function DecodeCharaEffAuth3dHeader(b: Buffer, p: nat): Result<Step<CharaEffAuth3dHeader>>
  {
    if p + CharaEffAuth3dWidth(b) > |b.data| then Err(OutOfBounds)
    else
      Ok(Step(CharaEffAuth3dHeader(SByteAt(b, p), SByteAt(b, p + 1), SByteAt(b, p + 2), SByteAt(b, p + 3),
                                   SByteAt(b, p + 4), SByteAt(b, p + 5), SByteAt(b, p + 6), SByteAt(b, p + 7),
                                   OffsetAt(b, p + 8), OffsetAt(b, p + 8 + b.W())),
              p + CharaEffAuth3dWidth(b)))
  }

  /** CharaEffAuth3d: the fixed part, then the entry and then the source followed. */
  function DecodeCharaEffAuth3d(b: Buffer, p: nat): Result<Step<CharaEffAuth3d>>
  {
    var header :- DecodeCharaEffAuth3dHeader(b, p);
    var h := header.val;
    var entry :- Follow(b, h.entryOffset, NewCharaEffAuth3d.charaEffAuth3dEntry, StringWithIdAt(b));
    var source :- Follow(b, h.sourceOffset, NewCharaEffAuth3d.sourceAuth3dEntry, StringWithIdAt(b));
    Ok(Step(NewCharaEffAuth3d.(u00 := h.u00, u01 := h.u01, u02 := h.u02, u03 := h.u03,
                               u04 := h.u04, u05 := h.u05, u06 := h.u06, u07 := h.u07,
                               charaEffAuth3dEntry := entry, sourceAuth3dEntry := source),
            header.next))
  }

  /** CharaEffEntry: the base character at 0, the auth3d count at 1 (a capacity, checked as
      soon as it is read), the performer at 2 and the array offset at 3, 3 + W bytes. */
  function DecodeCharaEffEntry(b: Buffer, p: nat): Result<Step<CharaEffEntry>>
  {
    if p + 2 > |b.data| then Err(OutOfBounds)
    else if SByteAt(b, p + 1) < 0 then Err(NegativeCapacity(SByteAt(b, p + 1)))
    else if p + CharaEffEntryWidth(b) > |b.data| then Err(OutOfBounds)
    else
      var entries :- Follow(b, OffsetAt(b, p + 3), NewCharaEffEntry.charaEffAuth3dEntries,
                            CharaEffAuth3dsAt(b, SByteAt(b, p + 1)));
      Ok(Step(NewCharaEffEntry.(baseCharacter := SByteAt(b, p), parentPerformerId := SByteAt(b, p + 2),
                                charaEffAuth3dEntries := entries),
              p + CharaEffEntryWidth(b)))
  }

  /** ItemEntry: the type at 0, three bytes at 1..3, an int32 at 4, the auth3d offset at 8,
      the node offset at 8 + W and four float words from 8 + 2W, 24 + 2W bytes, all read
      before the auth3d and then the node are followed. */
  function DecodeItemEntry(b: Buffer, p: nat): Result<Step<ItemEntry>>
  {
    var w := b.W();
    var q := p + 8 + 2 * w;
    if p + ItemEntryWidth(b) > |b.data| then Err(OutOfBounds)
    else
      var auth3dEntry :- Follow(b, OffsetAt(b, p + 8), NewItemEntry.auth3dEntry, StringWithIdAt(b));
      var node :- Follow(b, OffsetAt(b, p + 8 + w), NewItemEntry.node, NodeAt(b));
      Ok(Step(NewItemEntry.(itemType := SByteAt(b, p), u131 := SByteAt(b, p + 1), u132 := SByteAt(b, p + 2),
                            u133 := SByteAt(b, p + 3), u134_137 := Int32At(b, p + 4),
                            x := UInt32At(b, q), y := UInt32At(b, q + 4),
                            z := UInt32At(b, q + 8), w := UInt32At(b, q + 12),
                            auth3dEntry := auth3dEntry, node := node),
              p + ItemEntryWidth(b)))
  }

  /** The counts among CharaEntry's first 8 bytes, at 2, 3, 4 and 6; bytes 0, 1, 5 and 7 are
      read and dropped. */
  datatype CharaEntryCounts = CharaEntryCounts(motionCount: SByte, auth3dCount: SByte, itemCount: SByte,
                                               glitterCount: SByte)

  function DecodeCharaEntryCounts(b: Buffer, p: nat): Result<Step<CharaEntryCounts>>
  {
    if p + 8 > |b.data| then Err(OutOfBounds)
    else Ok(Step(CharaEntryCounts(SByteAt(b, p + 2), SByteAt(b, p + 3), SByteAt(b, p + 4), SByteAt(b, p + 6)),
                 p + 8))
  }

  /** The six offsets after those bytes: the five followed ones, then a sixth that is read
      and dropped. */
  datatype CharaEntryOffsets = CharaEntryOffsets(chrEffOffset: nat, motionOffset: nat, auth3dOffset: nat,
                                                 itemOffset: nat, glitterOffset: nat)

  function DecodeCharaEntryOffsets(b: Buffer, q: nat): Result<Step<CharaEntryOffsets>>
  {
    var w := b.W();
    if q + 6 * w > |b.data| then Err(OutOfBounds)
    else Ok(Step(CharaEntryOffsets(OffsetAt(b, q), OffsetAt(b, q + w), OffsetAt(b, q + 2 * w),
                                   OffsetAt(b, q + 3 * w), OffsetAt(b, q + 4 * w)),
                 q + 6 * w))
  }

  /** What CharaEntry.Read holds in locals before it follows any offset: the four counts and
      the five offsets it dereferences. */
  datatype CharaEntryHeader = CharaEntryHeader(
    motionCount: SByte, auth3dCount: SByte, itemCount: SByte, glitterCount: SByte,
    chrEffOffset: nat, motionOffset: nat, auth3dOffset: nat, itemOffset: nat, glitterOffset: nat)

  /** CharaEntry's fixed part, 8 + 6W bytes: the counts at 2, 3, 4 and 6 (bytes 0, 1, 5 and 7
      are read and dropped) and the five followed offsets from 8; a sixth offset at 8 + 5W is
      read and dropped. */
  function DecodeCharaEntryHeader(b: Buffer, p: nat): Result<Step<CharaEntryHeader>>
  {
    var w := b.W();
    if p + CharaEntryWidth(b) > |b.data| then Err(OutOfBounds)
    else
      Ok(Step(CharaEntryHeader(SByteAt(b, p + 2), SByteAt(b, p + 3), SByteAt(b, p + 4), SByteAt(b, p + 6),
                               OffsetAt(b, p + 8), OffsetAt(b, p + 8 + w), OffsetAt(b, p + 8 + 2 * w),
                               OffsetAt(b, p + 8 + 3 * w), OffsetAt(b, p + 8 + 4 * w)),
              p + CharaEntryWidth(b)))
  }

  /** CharaEntry: the fixed part, then the five bodies in order. The counts do not go through
      List.Capacity, so a negative one decodes no element. */
  function DecodeCharaEntry(b: Buffer, p: nat): Result<Step<CharaEntry>>
  {
    var header :- DecodeCharaEntryHeader(b, p);
    var h := header.val;
    var charaEffEntries :- Follow(b, h.chrEffOffset, NewCharaEntry.charaEffEntries,
                                  CharaEffListAt(b, NewCharaEntry.charaEffEntries));
    var motionEntries :- Follow(b, h.motionOffset, NewCharaEntry.motionEntries, MotionEntriesAt(b, h.motionCount));
    var auth3dEntries :- Follow(b, h.auth3dOffset, NewCharaEntry.auth3dEntries, StringWithIdsAt(b, h.auth3dCount));
    var itemEntries :- Follow(b, h.itemOffset, NewCharaEntry.itemEntries, ItemEntriesAt(b, h.itemCount));
    var glitterEntries :- Follow(b, h.glitterOffset, NewCharaEntry.glitterEntries,
                                 GlitterEntriesAt(b, h.glitterCount));
    Ok(Step(NewCharaEntry.(charaEffEntries := charaEffEntries, motionEntries := motionEntries,
                           auth3dEntries := auth3dEntries, itemEntries := itemEntries,
                           glitterEntries := glitterEntries),
            header.next))
  }

  /** The body the root runs at the song-effect offset, 8 + W bytes: u40 at 0, the song-effect
      count at 1 (a capacity, checked as soon as it is read), u42 and u43 at 2 and 3, an int32
      at 4 and the array offset at 8. */
  function DecodeSongEffectSection(b: Buffer, p: nat, doc: PVPerformerParameter): Result<Step<PVPerformerParameter>>
  {
    if p + 2 > |b.data| then Err(OutOfBounds)
    else if SByteAt(b, p + 1) < 0 then Err(NegativeCapacity(SByteAt(b, p + 1)))
    else if p + SongEffectSectionWidth(b) > |b.data| then Err(OutOfBounds)
    else
      var songEffects :- Follow(b, OffsetAt(b, p + 8), doc.songEffects, SongEffectsAt(b, SByteAt(b, p + 1)));
      Ok(Step(doc.(u40 := SByteAt(b, p), u42 := SByteAt(b, p + 2), u43 := SByteAt(b, p + 3),
                   u44_47 := Int32At(b, p + 4), songEffects := songEffects),
              p + SongEffectSectionWidth(b)))
  }

  /** What PVPerformerParameter.Read holds in locals before it follows any offset: the
      chara-entry count and the two offsets it dereferences, beside the fields it stores. */
  datatype Header = Header(u20: UInt32, charaEntryCount: SByte, u25: SByte, u26: SByte, u27: SByte,
                           songEffectSectionOffset: nat, charaEntriesOffset: nat)

  /** The root's fixed part, 8 + 3W bytes: a uint32 at 0, the chara-entry count at 4 (a
      capacity, checked as soon as it is read), three bytes at 5..7 and the two followed
      offsets at 8 and 8 + W; a third offset at 8 + 2W is read and dropped. */
  function DecodeHeader(b: Buffer, p: nat): Result<Step<Header>>
  {
    if p + 5 > |b.data| then Err(OutOfBounds)
    else if SByteAt(b, p + 4) < 0 then Err(NegativeCapacity(SByteAt(b, p + 4)))
    else if p + HeaderWidth(b) > |b.data| then Err(OutOfBounds)
    else
      Ok(Step(Header(UInt32At(b, p), SByteAt(b, p + 4), SByteAt(b, p + 5), SByteAt(b, p + 6), SByteAt(b, p + 7),
                     OffsetAt(b, p + 8), OffsetAt(b, p + 8 + b.W())),
              p + HeaderWidth(b)))
  }

  /** PVPerformerParameter: the header, then the song-effect section, then the chara-entry
      array; the cursor ends just past the header. */
  function DecodePVPerformerParameter(b: Buffer, p: nat): Result<Step<PVPerformerParameter>>
  {
    var header :- DecodeHeader(b, p);
    var h := header.val;
    var doc := NewPVPerformerParameter.(u20 := h.u20, u25 := h.u25, u26 := h.u26, u27 := h.u27);
    var withSongEffects :- Follow(b, h.songEffectSectionOffset, doc, SongEffectSectionAt(b, doc));
    var charaEntries :- Follow(b, h.charaEntriesOffset, doc.charaEntries, CharaEntriesAt(b, h.charaEntryCount));
    Ok(Step(withSongEffects.(charaEntries := charaEntries), header.next))
  }
}
