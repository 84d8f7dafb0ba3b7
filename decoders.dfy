/** The `Read` methods: each reads its record field by field through the shared reader,
    assigns the fields of a default-constructed record, and reaches nested records through
    ReadAtOffset (the `Follow` methods: skip an absent offset, otherwise seek, run the body
    and seek back). Each is proved to decode what `Format` says and to leave the cursor just
    past the record's fixed part. */
module Decoders {
  import opened Bytes
  import opened Results
  import opened Layout
  import opened Records
  import opened Format
  import opened Cursor

  // StringWithId

  method ReadStringWithId(r: Reader) returns (res: Result<StringWithId>)
    modifies r
    ensures Agrees(res, r.pos, DecodeStringWithId(r.buf, old(r.pos)))
    ensures res.Ok? ==> r.pos == old(r.pos) + r.buf.W() + 8
  {
    var offset :- r.ReadOffset();
    var id :- r.ReadInt64();
    var name :- r.ReadStringAtOffset(offset);
    return Ok(NewStringWithId.(name := name, id := id));
  }

  /** The loop body of an auth3d array: `count` entries from the cursor, in file order. */
  method ReadStringWithIds(r: Reader, count: int) returns (res: Result<seq<StringWithId>>)
    modifies r
    ensures Agrees(res, r.pos, Array(StringWithIdAt(r.buf), old(r.pos), count))
  {
    ghost var dec := StringWithIdAt(r.buf);
    var entries := [];
    var i := 0;
    while i < count
      invariant i <= Max0(count)
      invariant Array(dec, old(r.pos), i) == Ok(Step(entries, r.pos))
    {
      ghost var at := r.pos;
      var next := ReadStringWithId(r);
      if next.Err? {
        AgreesErr(next, r.pos, dec(at));
        ArrayCut(dec, old(r.pos), i, count, entries, at);
        return Err(next.error);
      }
      var entry := next.value;
      AgreesOk(next, r.pos, dec(at));
      ArraySnoc(dec, old(r.pos), i, entries, at, entry, r.pos);
      entries := entries + [entry];
      i := i + 1;
    }
    ArrayExit(dec, old(r.pos), i, count);
    return Ok(entries);
  }

  /** ReadAtOffset with one StringWithId as its body. */
  method FollowStringWithId(r: Reader, off: nat, current: StringWithId) returns (res: Result<StringWithId>)
    modifies r
    ensures res == Follow(r.buf, off, current, StringWithIdAt(r.buf))
    ensures res.Ok? ==> r.pos == old(r.pos)
  {
    if off == 0 {
      return Ok(current);
    }
    var saved :- r.EnterOffset(off);
    var value :- ReadStringWithId(r);
    r.RestorePosition(saved);
    return Ok(value);
  }

  /** ReadAtOffset with the StringWithId loop as its body. */
  method FollowStringWithIds(r: Reader, off: nat, count: int, current: seq<StringWithId>) returns (res: Result<seq<StringWithId>>)
    modifies r
    ensures res == Follow(r.buf, off, current, StringWithIdsAt(r.buf, count))
    ensures res.Ok? ==> r.pos == old(r.pos)
  {
    if off == 0 {
      return Ok(current);
    }
    var saved :- r.EnterOffset(off);
    var value :- ReadStringWithIds(r, count);
    r.RestorePosition(saved);
    return Ok(value);
  }

  // GlitterEntry

  method ReadGlitterEntry(r: Reader) returns (res: Result<GlitterEntry>)
    modifies r
    ensures Agrees(res, r.pos, DecodeGlitterEntry(r.buf, old(r.pos)))
    ensures res.Ok? ==> r.pos == old(r.pos) + 2 * r.buf.W() + 1
  {
    var nameOffset :- r.ReadOffset();
    var name :- r.ReadStringAtOffset(nameOffset);
    var unkOffset :- r.ReadOffset();
    var unkString :- r.ReadStringAtOffset(unkOffset);
    var unk :- r.ReadSByte();
    return Ok(NewGlitterEntry.(name := name, unkString := unkString, unk := unk));
  }

  method ReadGlitterEntries(r: Reader, count: int) returns (res: Result<seq<GlitterEntry>>)
    modifies r
    ensures Agrees(res, r.pos, Array(GlitterEntryAt(r.buf), old(r.pos), count))
  {
    ghost var dec := GlitterEntryAt(r.buf);
    var entries := [];
    var i := 0;
    while i < count
      invariant i <= Max0(count)
      invariant Array(dec, old(r.pos), i) == Ok(Step(entries, r.pos))
    {
      ghost var at := r.pos;
      var next := ReadGlitterEntry(r);
      if next.Err? {
        AgreesErr(next, r.pos, dec(at));
        ArrayCut(dec, old(r.pos), i, count, entries, at);
        return Err(next.error);
      }
      var entry := next.value;
      AgreesOk(next, r.pos, dec(at));
      ArraySnoc(dec, old(r.pos), i, entries, at, entry, r.pos);
      entries := entries + [entry];
      i := i + 1;
    }
    ArrayExit(dec, old(r.pos), i, count);
    return Ok(entries);
  }

  /** ReadAtOffset with the GlitterEntry loop as its body. */
  method FollowGlitterEntries(r: Reader, off: nat, count: int, current: seq<GlitterEntry>) returns (res: Result<seq<GlitterEntry>>)
    modifies r
    ensures res == Follow(r.buf, off, current, GlitterEntriesAt(r.buf, count))
    ensures res.Ok? ==> r.pos == old(r.pos)
  {
    if off == 0 {
      return Ok(current);
    }
    var saved :- r.EnterOffset(off);
    var value :- ReadGlitterEntries(r, count);
    r.RestorePosition(saved);
    return Ok(value);
  }

  // SongEffect

  method ReadSongEffect(r: Reader) returns (res: Result<SongEffect>)
    modifies r
    ensures Agrees(res, r.pos, DecodeSongEffect(r.buf, old(r.pos)))
    ensures res.Ok? ==> r.pos == old(r.pos) + 8 + 2 * r.buf.W()
  {
    var auth3dEntriesCount :- r.ReadSByte();
    :- SetCapacity(auth3dEntriesCount);
    var glitterEntriesCount :- r.ReadSByte();
    :- SetCapacity(glitterEntriesCount);
    var parentId :- r.ReadSByte();
    r.SeekCurrent(5);
    var auth3dOffset :- r.ReadOffset();
    var auth3dEntries :- FollowStringWithIds(r, auth3dOffset, auth3dEntriesCount, NewSongEffect.auth3dEntries);
    var glitterOffset :- r.ReadOffset();
    var glitterEntries :- FollowGlitterEntries(r, glitterOffset, glitterEntriesCount, NewSongEffect.glitterEntries);
    return Ok(NewSongEffect.(parentId := parentId, auth3dEntries := auth3dEntries, glitterEntries := glitterEntries));
  }

  method ReadSongEffects(r: Reader, count: int) returns (res: Result<seq<SongEffect>>)
    modifies r
    ensures Agrees(res, r.pos, Array(SongEffectAt(r.buf), old(r.pos), count))
  {
    ghost var dec := SongEffectAt(r.buf);
    var effects := [];
    var i := 0;
    while i < count
      invariant i <= Max0(count)
      invariant Array(dec, old(r.pos), i) == Ok(Step(effects, r.pos))
    {
      ghost var at := r.pos;
      var next := ReadSongEffect(r);
      if next.Err? {
        AgreesErr(next, r.pos, dec(at));
        ArrayCut(dec, old(r.pos), i, count, effects, at);
        return Err(next.error);
      }
      var effect := next.value;
      AgreesOk(next, r.pos, dec(at));
      ArraySnoc(dec, old(r.pos), i, effects, at, effect, r.pos);
      effects := effects + [effect];
      i := i + 1;
    }
    ArrayExit(dec, old(r.pos), i, count);
    return Ok(effects);
  }

  /** ReadAtOffset with the SongEffect loop as its body. */
  method FollowSongEffects(r: Reader, off: nat, count: int, current: seq<SongEffect>) returns (res: Result<seq<SongEffect>>)
    modifies r
    ensures res == Follow(r.buf, off, current, SongEffectsAt(r.buf, count))
    ensures res.Ok? ==> r.pos == old(r.pos)
  {
    if off == 0 {
      return Ok(current);
    }
    var saved :- r.EnterOffset(off);
    var value :- ReadSongEffects(r, count);
    r.RestorePosition(saved);
    return Ok(value);
  }

  // MotionEntry

  method ReadMotionEntry(r: Reader) returns (res: Result<MotionEntry>)
    modifies r
    ensures Agrees(res, r.pos, DecodeMotionEntry(r.buf, old(r.pos)))
    ensures res.Ok? ==> r.pos == old(r.pos) + 2 * r.buf.W()
  {
    var motionNameOffset :- r.ReadOffset();
    var nextMotionOffset :- r.ReadOffset();
    var motionName :- FollowStringWithId(r, motionNameOffset, NewMotionEntry.motionName);
    return Ok(NewMotionEntry.(motionName := motionName, nextMotionOffset := nextMotionOffset));
  }

  method ReadMotionEntries(r: Reader, count: int) returns (res: Result<seq<MotionEntry>>)
    modifies r
    ensures Agrees(res, r.pos, Array(MotionEntryAt(r.buf), old(r.pos), count))
  {
    ghost var dec := MotionEntryAt(r.buf);
    var entries := [];
    var i := 0;
    while i < count
      invariant i <= Max0(count)
      invariant Array(dec, old(r.pos), i) == Ok(Step(entries, r.pos))
    {
      ghost var at := r.pos;
      var next := ReadMotionEntry(r);
      if next.Err? {
        AgreesErr(next, r.pos, dec(at));
        ArrayCut(dec, old(r.pos), i, count, entries, at);
        return Err(next.error);
      }
      var entry := next.value;
      AgreesOk(next, r.pos, dec(at));
      ArraySnoc(dec, old(r.pos), i, entries, at, entry, r.pos);
      entries := entries + [entry];
      i := i + 1;
    }
    ArrayExit(dec, old(r.pos), i, count);
    return Ok(entries);
  }

  /** ReadAtOffset with the MotionEntry loop as its body. */
  method FollowMotionEntries(r: Reader, off: nat, count: int, current: seq<MotionEntry>) returns (res: Result<seq<MotionEntry>>)
    modifies r
    ensures res == Follow(r.buf, off, current, MotionEntriesAt(r.buf, count))
    ensures res.Ok? ==> r.pos == old(r.pos)
  {
    if off == 0 {
      return Ok(current);
    }
    var saved :- r.EnterOffset(off);
    var value :- ReadMotionEntries(r, count);
    r.RestorePosition(saved);
    return Ok(value);
  }

  // CharaEffAuth3d

  /** CharaEffAuth3d.Read up to the second offset. */
  method ReadCharaEffAuth3dHeader(r: Reader) returns (res: Result<CharaEffAuth3dHeader>)
    modifies r
    ensures Agrees(res, r.pos, DecodeCharaEffAuth3dHeader(r.buf, old(r.pos)))
  {
    ghost var p, w := r.pos, r.buf.W();  // the record's first byte and the offset width
    var u00 :- r.ReadSByte();
    var u01 :- r.ReadSByte();
    var u02 :- r.ReadSByte();
    var u03 :- r.ReadSByte();
    var u04 :- r.ReadSByte();
    var u05 :- r.ReadSByte();
    var u06 :- r.ReadSByte();
    var u07 :- r.ReadSByte();
    var entryOffset :- r.ReadOffset();
    var sourceOffset :- r.ReadOffset();
    return Ok(CharaEffAuth3dHeader(u00, u01, u02, u03, u04, u05, u06, u07, entryOffset, sourceOffset));
  }

  method ReadCharaEffAuth3d(r: Reader) returns (res: Result<CharaEffAuth3d>)
    modifies r
    ensures Agrees(res, r.pos, DecodeCharaEffAuth3d(r.buf, old(r.pos)))
    ensures res.Ok? ==> r.pos == old(r.pos) + 8 + 2 * r.buf.W()
  {
    var h :- ReadCharaEffAuth3dHeader(r);
    var entry :- FollowStringWithId(r, h.entryOffset, NewCharaEffAuth3d.charaEffAuth3dEntry);
    var source :- FollowStringWithId(r, h.sourceOffset, NewCharaEffAuth3d.sourceAuth3dEntry);
    return Ok(NewCharaEffAuth3d.(u00 := h.u00, u01 := h.u01, u02 := h.u02, u03 := h.u03,
                                 u04 := h.u04, u05 := h.u05, u06 := h.u06, u07 := h.u07,
                                 charaEffAuth3dEntry := entry, sourceAuth3dEntry := source));
  }

  method ReadCharaEffAuth3ds(r: Reader, count: int) returns (res: Result<seq<CharaEffAuth3d>>)
    modifies r
    ensures Agrees(res, r.pos, Array(CharaEffAuth3dAt(r.buf), old(r.pos), count))
  {
    ghost var dec := CharaEffAuth3dAt(r.buf);
    var entries := [];
    var i := 0;
    while i < count
      invariant i <= Max0(count)
      invariant Array(dec, old(r.pos), i) == Ok(Step(entries, r.pos))
    {
      ghost var at := r.pos;
      var next := ReadCharaEffAuth3d(r);
      if next.Err? {
        AgreesErr(next, r.pos, dec(at));
        ArrayCut(dec, old(r.pos), i, count, entries, at);
        return Err(next.error);
      }
      var entry := next.value;
      AgreesOk(next, r.pos, dec(at));
      ArraySnoc(dec, old(r.pos), i, entries, at, entry, r.pos);
      entries := entries + [entry];
      i := i + 1;
    }
    ArrayExit(dec, old(r.pos), i, count);
    return Ok(entries);
  }

  /** ReadAtOffset with the CharaEffAuth3d loop as its body. */
  method FollowCharaEffAuth3ds(r: Reader, off: nat, count: int, current: seq<CharaEffAuth3d>) returns (res: Result<seq<CharaEffAuth3d>>)
    modifies r
    ensures res == Follow(r.buf, off, current, CharaEffAuth3dsAt(r.buf, count))
    ensures res.Ok? ==> r.pos == old(r.pos)
  {
    if off == 0 {
      return Ok(current);
    }
    var saved :- r.EnterOffset(off);
    var value :- ReadCharaEffAuth3ds(r, count);
    r.RestorePosition(saved);
    return Ok(value);
  }

  // CharaEffEntry

  method ReadCharaEffEntry(r: Reader) returns (res: Result<CharaEffEntry>)
    modifies r
    ensures Agrees(res, r.pos, DecodeCharaEffEntry(r.buf, old(r.pos)))
    ensures res.Ok? ==> r.pos == old(r.pos) + 3 + r.buf.W()
  {
    var baseCharacter :- r.ReadSByte();
    var auth3dCount :- r.ReadSByte();
    :- SetCapacity(auth3dCount);
    var parentPerformerId :- r.ReadSByte();
    var a3dOffset :- r.ReadOffset();
    var entries :- FollowCharaEffAuth3ds(r, a3dOffset, auth3dCount, NewCharaEffEntry.charaEffAuth3dEntries);
    return Ok(NewCharaEffEntry.(baseCharacter := baseCharacter, parentPerformerId := parentPerformerId,
                                charaEffAuth3dEntries := entries));
  }

  /** The chr-eff body: one CharaEffEntry, added to the list. */
  method ReadCharaEffList(r: Reader, list: seq<CharaEffEntry>) returns (res: Result<seq<CharaEffEntry>>)
    modifies r
    ensures Agrees(res, r.pos, CharaEffListAt(r.buf, list)(old(r.pos)))
  {
    var entry :- ReadCharaEffEntry(r);
    return Ok(list + [entry]);
  }

  /** ReadAtOffset with the chr-eff body. */
  method FollowCharaEffList(r: Reader, off: nat, current: seq<CharaEffEntry>) returns (res: Result<seq<CharaEffEntry>>)
    modifies r
    ensures res == Follow(r.buf, off, current, CharaEffListAt(r.buf, current))
    ensures res.Ok? ==> r.pos == old(r.pos)
  {
    if off == 0 {
      return Ok(current);
    }
    var saved :- r.EnterOffset(off);
    var value :- ReadCharaEffList(r, current);
    r.RestorePosition(saved);
    return Ok(value);
  }

  // ItemEntry

  method ReadItemEntry(r: Reader) returns (res: Result<ItemEntry>)
    modifies r
    ensures Agrees(res, r.pos, DecodeItemEntry(r.buf, old(r.pos)))
    ensures res.Ok? ==> r.pos == old(r.pos) + 24 + 2 * r.buf.W()
  {
    ghost var p, w := r.pos, r.buf.W();  // the record's first byte and the offset width
    var itemType :- r.ReadSByte();
    var u131 :- r.ReadSByte();
    var u132 :- r.ReadSByte();
    var u133 :- r.ReadSByte();
    var u134_137 :- r.ReadInt32();
    var auth3dsOffset :- r.ReadOffset();
    var nodeOffset :- r.ReadOffset();
    var x :- r.ReadSingle();
    var y :- r.ReadSingle();
    var z :- r.ReadSingle();
    var w' :- r.ReadSingle();
    var auth3dEntry :- FollowStringWithId(r, auth3dsOffset, NewItemEntry.auth3dEntry);
    var node :- FollowNode(r, nodeOffset, NewItemEntry.node);
    return Ok(NewItemEntry.(itemType := itemType, u131 := u131, u132 := u132, u133 := u133,
                            u134_137 := u134_137, x := x, y := y, z := z, w := w',
                            auth3dEntry := auth3dEntry, node := node));
  }

  /** ReadAtOffset with ReadString as its body: the node name. */
  method FollowNode(r: Reader, off: nat, current: seq<byte>) returns (res: Result<seq<byte>>)
    modifies r
    ensures res == Follow(r.buf, off, current, NodeAt(r.buf))
    ensures res.Ok? ==> r.pos == old(r.pos)
  {
    if off == 0 {
      return Ok(current);
    }
    var saved :- r.EnterOffset(off);
    var value :- r.ReadString();
    r.RestorePosition(saved);
    return Ok(value);
  }

  method ReadItemEntries(r: Reader, count: int) returns (res: Result<seq<ItemEntry>>)
    modifies r
    ensures Agrees(res, r.pos, Array(ItemEntryAt(r.buf), old(r.pos), count))
  {
    ghost var dec := ItemEntryAt(r.buf);
    var entries := [];
    var i := 0;
    while i < count
      invariant i <= Max0(count)
      invariant Array(dec, old(r.pos), i) == Ok(Step(entries, r.pos))
    {
      ghost var at := r.pos;
      var next := ReadItemEntry(r);
      if next.Err? {
        AgreesErr(next, r.pos, dec(at));
        ArrayCut(dec, old(r.pos), i, count, entries, at);
        return Err(next.error);
      }
      var entry := next.value;
      AgreesOk(next, r.pos, dec(at));
      ArraySnoc(dec, old(r.pos), i, entries, at, entry, r.pos);
      entries := entries + [entry];
      i := i + 1;
    }
    ArrayExit(dec, old(r.pos), i, count);
    return Ok(entries);
  }

  /** ReadAtOffset with the ItemEntry loop as its body. */
  method FollowItemEntries(r: Reader, off: nat, count: int, current: seq<ItemEntry>) returns (res: Result<seq<ItemEntry>>)
    modifies r
    ensures res == Follow(r.buf, off, current, ItemEntriesAt(r.buf, count))
    ensures res.Ok? ==> r.pos == old(r.pos)
  {
    if off == 0 {
      return Ok(current);
    }
    var saved :- r.EnterOffset(off);
    var value :- ReadItemEntries(r, count);
    r.RestorePosition(saved);
    return Ok(value);
  }

  // CharaEntry

  /** CharaEntry.Read's first 8 bytes: four counts kept, four bytes dropped. */
  method ReadCharaEntryCounts(r: Reader) returns (res: Result<CharaEntryCounts>)
    modifies r
    ensures Agrees(res, r.pos, DecodeCharaEntryCounts(r.buf, old(r.pos)))
  {
    var u00 :- r.ReadSByte();
    var u01 :- r.ReadSByte();
    var motionCount :- r.ReadSByte();
    var auth3dCount :- r.ReadSByte();
    var itemCount :- r.ReadSByte();
    var u05 :- r.ReadSByte();
    var glitterCount :- r.ReadSByte();
    var u07 :- r.ReadSByte();
    return Ok(CharaEntryCounts(motionCount, auth3dCount, itemCount, glitterCount));
  }

  /** CharaEntry.Read's six offsets: five kept, the last (o30) dropped. */
  method ReadCharaEntryOffsets(r: Reader) returns (res: Result<CharaEntryOffsets>)
    modifies r
    ensures Agrees(res, r.pos, DecodeCharaEntryOffsets(r.buf, old(r.pos)))
  {
    ghost var q, w := r.pos, r.buf.W();  // the first offset's position and the offset width
    var chrEffOffset :- r.ReadOffset();
    var motionOffset :- r.ReadOffset();
    var auth3dOffset :- r.ReadOffset();
    var itemOffset :- r.ReadOffset();
    var glitterOffset :- r.ReadOffset();
    var o30 :- r.ReadOffset();
    return Ok(CharaEntryOffsets(chrEffOffset, motionOffset, auth3dOffset, itemOffset, glitterOffset));
  }

  /** CharaEntry.Read up to the last offset: the counts and offsets it keeps in locals. */
  method ReadCharaEntryHeader(r: Reader) returns (res: Result<CharaEntryHeader>)
    modifies r
    ensures Agrees(res, r.pos, DecodeCharaEntryHeader(r.buf, old(r.pos)))
  {
    var c :- ReadCharaEntryCounts(r);
    var o :- ReadCharaEntryOffsets(r);
    return Ok(CharaEntryHeader(c.motionCount, c.auth3dCount, c.itemCount, c.glitterCount,
                               o.chrEffOffset, o.motionOffset, o.auth3dOffset, o.itemOffset, o.glitterOffset));
  }

  method ReadCharaEntry(r: Reader) returns (res: Result<CharaEntry>)
    modifies r
    ensures Agrees(res, r.pos, DecodeCharaEntry(r.buf, old(r.pos)))
    ensures res.Ok? ==> r.pos == old(r.pos) + 8 + 6 * r.buf.W()
  {
    var h :- ReadCharaEntryHeader(r);
    var charaEffEntries :- FollowCharaEffList(r, h.chrEffOffset, NewCharaEntry.charaEffEntries);
    var motionEntries :- FollowMotionEntries(r, h.motionOffset, h.motionCount, NewCharaEntry.motionEntries);
    var auth3dEntries :- FollowStringWithIds(r, h.auth3dOffset, h.auth3dCount, NewCharaEntry.auth3dEntries);
    var itemEntries :- FollowItemEntries(r, h.itemOffset, h.itemCount, NewCharaEntry.itemEntries);
    var glitterEntries :- FollowGlitterEntries(r, h.glitterOffset, h.glitterCount, NewCharaEntry.glitterEntries);
    return Ok(NewCharaEntry.(charaEffEntries := charaEffEntries, motionEntries := motionEntries,
                             auth3dEntries := auth3dEntries, itemEntries := itemEntries,
                             glitterEntries := glitterEntries));
  }

  method ReadCharaEntries(r: Reader, count: int) returns (res: Result<seq<CharaEntry>>)
    modifies r
    ensures Agrees(res, r.pos, Array(CharaEntryAt(r.buf), old(r.pos), count))
  {
    ghost var dec := CharaEntryAt(r.buf);
    var entries := [];
    var i := 0;
    while i < count
      invariant i <= Max0(count)
      invariant Array(dec, old(r.pos), i) == Ok(Step(entries, r.pos))
    {
      ghost var at := r.pos;
      var next := ReadCharaEntry(r);
      if next.Err? {
        AgreesErr(next, r.pos, dec(at));
        ArrayCut(dec, old(r.pos), i, count, entries, at);
        return Err(next.error);
      }
      var entry := next.value;
      AgreesOk(next, r.pos, dec(at));
      ArraySnoc(dec, old(r.pos), i, entries, at, entry, r.pos);
      entries := entries + [entry];
      i := i + 1;
    }
    ArrayExit(dec, old(r.pos), i, count);
    return Ok(entries);
  }

  /** ReadAtOffset with the CharaEntry loop as its body. */
  method FollowCharaEntries(r: Reader, off: nat, count: int, current: seq<CharaEntry>) returns (res: Result<seq<CharaEntry>>)
    modifies r
    ensures res == Follow(r.buf, off, current, CharaEntriesAt(r.buf, count))
    ensures res.Ok? ==> r.pos == old(r.pos)
  {
    if off == 0 {
      return Ok(current);
    }
    var saved :- r.EnterOffset(off);
    var value :- ReadCharaEntries(r, count);
    r.RestorePosition(saved);
    return Ok(value);
  }

  // PVPerformerParameter

  /** The body the root runs at the song-effect offset; it fills in fields of `doc`. */
  method ReadSongEffectSection(r: Reader, doc: PVPerformerParameter) returns (res: Result<PVPerformerParameter>)
    modifies r
    ensures Agrees(res, r.pos, DecodeSongEffectSection(r.buf, old(r.pos), doc))
    ensures res.Ok? ==> r.pos == old(r.pos) + 8 + r.buf.W()
  {
    var u40 :- r.ReadSByte();
    var songEffectCount :- r.ReadSByte();
    :- SetCapacity(songEffectCount);
    var u42 :- r.ReadSByte();
    var u43 :- r.ReadSByte();
    var u44_47 :- r.ReadInt32();
    var songEffectOffset :- r.ReadOffset();
    var songEffects :- FollowSongEffects(r, songEffectOffset, songEffectCount, doc.songEffects);
    return Ok(doc.(u40 := u40, u42 := u42, u43 := u43, u44_47 := u44_47, songEffects := songEffects));
  }

  /** ReadAtOffset with the song-effect section as its body. */
  method FollowSongEffectSection(r: Reader, off: nat, current: PVPerformerParameter) returns (res: Result<PVPerformerParameter>)
    modifies r
    ensures res == Follow(r.buf, off, current, SongEffectSectionAt(r.buf, current))
    ensures res.Ok? ==> r.pos == old(r.pos)
  {
    if off == 0 {
      return Ok(current);
    }
    var saved :- r.EnterOffset(off);
    var value :- ReadSongEffectSection(r, current);
    r.RestorePosition(saved);
    return Ok(value);
  }

  /** The first part of PVPerformerParameter.Read: the fixed fields, up to the last offset. */
  method ReadHeader(r: Reader) returns (res: Result<Header>)
    modifies r
    ensures Agrees(res, r.pos, DecodeHeader(r.buf, old(r.pos)))
  {
    ghost var p, w := r.pos, r.buf.W();  // the record's first byte and the offset width
    var u20 :- r.ReadUInt32();
    var charaEntryCount :- r.ReadSByte();
    :- SetCapacity(charaEntryCount);
    var u25 :- r.ReadSByte();
    var u26 :- r.ReadSByte();
    var u27 :- r.ReadSByte();
    var songEffectSectionOffset :- r.ReadOffset();
    var charaEntriesOffset :- r.ReadOffset();
    var unkOffset :- r.ReadOffset();
    return Ok(Header(u20, charaEntryCount, u25, u26, u27, songEffectSectionOffset, charaEntriesOffset));
  }

  /** PVPerformerParameter.Read, from the reader's current position. */
  method ReadPVPerformerParameter(r: Reader) returns (res: Result<PVPerformerParameter>)
    modifies r
    ensures Agrees(res, r.pos, DecodePVPerformerParameter(r.buf, old(r.pos)))
    ensures res.Ok? ==> r.pos == old(r.pos) + 8 + 3 * r.buf.W()
  {
    var doc := NewPVPerformerParameter;
    var h :- ReadHeader(r);
    doc := doc.(u20 := h.u20, u25 := h.u25, u26 := h.u26, u27 := h.u27);
    doc :- FollowSongEffectSection(r, h.songEffectSectionOffset, doc);
    var charaEntries :- FollowCharaEntries(r, h.charaEntriesOffset, h.charaEntryCount, doc.charaEntries);
    doc := doc.(charaEntries := charaEntries);
    return Ok(doc);
  }
}
