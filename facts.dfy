/** What the record layouts in `Format` guarantee: where the cursor ends, where each element
    of an array sits, what an absent offset leaves behind, and which bytes the stored enum
    values come from. */
module FormatFacts {
  import opened Bytes
  import opened Results
  import opened Layout
  import opened Records
  import opened Format

  // Fixed widths: a successful decode leaves the cursor just past the fixed part, whatever the
  // bodies reached through offsets consumed.

  lemma StringWithIdConsumes(b: Buffer, p: nat)
    requires DecodeStringWithId(b, p).Ok?
    ensures DecodeStringWithId(b, p).value.next == p + b.W() + 8
  {
  }

  lemma GlitterEntryConsumes(b: Buffer, p: nat)
    requires DecodeGlitterEntry(b, p).Ok?
    ensures DecodeGlitterEntry(b, p).value.next == p + 2 * b.W() + 1
  {
  }

  lemma SongEffectConsumes(b: Buffer, p: nat)
    requires DecodeSongEffect(b, p).Ok?
    ensures DecodeSongEffect(b, p).value.next == p + 8 + 2 * b.W()
  {
  }

  lemma MotionEntryConsumes(b: Buffer, p: nat)
    requires DecodeMotionEntry(b, p).Ok?
    ensures DecodeMotionEntry(b, p).value.next == p + 2 * b.W()
  {
  }

  lemma CharaEffAuth3dConsumes(b: Buffer, p: nat)
    requires DecodeCharaEffAuth3d(b, p).Ok?
    ensures DecodeCharaEffAuth3d(b, p).value.next == p + 8 + 2 * b.W()
  {
  }

  lemma CharaEffEntryConsumes(b: Buffer, p: nat)
    requires DecodeCharaEffEntry(b, p).Ok?
    ensures DecodeCharaEffEntry(b, p).value.next == p + 3 + b.W()
  {
  }

  lemma ItemEntryConsumes(b: Buffer, p: nat)
    requires DecodeItemEntry(b, p).Ok?
    ensures DecodeItemEntry(b, p).value.next == p + 24 + 2 * b.W()
  {
  }

  lemma CharaEntryConsumes(b: Buffer, p: nat)
    requires DecodeCharaEntry(b, p).Ok?
    ensures DecodeCharaEntry(b, p).value.next == p + 8 + 6 * b.W()
  {
  }

  lemma HeaderConsumes(b: Buffer, p: nat)
    requires DecodeHeader(b, p).Ok?
    ensures DecodeHeader(b, p).value.next == p + 8 + 3 * b.W()
  {
  }

  lemma PVPerformerParameterConsumes(b: Buffer, p: nat)
    requires DecodePVPerformerParameter(b, p).Ok?
    ensures DecodePVPerformerParameter(b, p).value.next == p + 8 + 3 * b.W()
  {
  }

  lemma SongEffectSectionConsumes(b: Buffer, p: nat, doc: PVPerformerParameter)
    requires DecodeSongEffectSection(b, p, doc).Ok?
    ensures DecodeSongEffectSection(b, p, doc).value.next == p + 8 + b.W()
  {
  }

  // Each array element decoder advances by its record's width.

  lemma StringWithIdAdvances(b: Buffer)
    ensures Advances(StringWithIdAt(b), StringWithIdWidth(b))
  {
    forall q: nat | StringWithIdAt(b)(q).Ok? ensures StringWithIdAt(b)(q).value.next == q + StringWithIdWidth(b) {
      StringWithIdConsumes(b, q);
    }
  }

  lemma GlitterEntryAdvances(b: Buffer)
    ensures Advances(GlitterEntryAt(b), GlitterEntryWidth(b))
  {
    forall q: nat | GlitterEntryAt(b)(q).Ok? ensures GlitterEntryAt(b)(q).value.next == q + GlitterEntryWidth(b) {
      GlitterEntryConsumes(b, q);
    }
  }

  lemma SongEffectAdvances(b: Buffer)
    ensures Advances(SongEffectAt(b), SongEffectWidth(b))
  {
    forall q: nat | SongEffectAt(b)(q).Ok? ensures SongEffectAt(b)(q).value.next == q + SongEffectWidth(b) {
      SongEffectConsumes(b, q);
    }
  }

  lemma MotionEntryAdvances(b: Buffer)
    ensures Advances(MotionEntryAt(b), MotionEntryWidth(b))
  {
    forall q: nat | MotionEntryAt(b)(q).Ok? ensures MotionEntryAt(b)(q).value.next == q + MotionEntryWidth(b) {
      MotionEntryConsumes(b, q);
    }
  }

  lemma CharaEffAuth3dAdvances(b: Buffer)
    ensures Advances(CharaEffAuth3dAt(b), CharaEffAuth3dWidth(b))
  {
    forall q: nat | CharaEffAuth3dAt(b)(q).Ok? ensures CharaEffAuth3dAt(b)(q).value.next == q + CharaEffAuth3dWidth(b) {
      CharaEffAuth3dConsumes(b, q);
    }
  }

  lemma ItemEntryAdvances(b: Buffer)
    ensures Advances(ItemEntryAt(b), ItemEntryWidth(b))
  {
    forall q: nat | ItemEntryAt(b)(q).Ok? ensures ItemEntryAt(b)(q).value.next == q + ItemEntryWidth(b) {
      ItemEntryConsumes(b, q);
    }
  }

  lemma CharaEntryAdvances(b: Buffer)
    ensures Advances(CharaEntryAt(b), CharaEntryWidth(b))
  {
    forall q: nat | CharaEntryAt(b)(q).Ok? ensures CharaEntryAt(b)(q).value.next == q + CharaEntryWidth(b) {
      CharaEntryConsumes(b, q);
    }
  }

  /** An array reached through an offset: an absent offset leaves `current`; any other holds
      exactly `count` records (none for a negative count), the i-th decoded at
      `off + i * width`. */
  ghost predicate FollowedArray<T>(dec: nat -> Result<Step<T>>, width: nat, off: nat, count: int,
                                   current: seq<T>, xs: seq<T>)
  {
    && (off == 0 ==> xs == current)
    && (off != 0 ==> |xs| == Max0(count) && Strided(dec, off, width, xs))
  }

  /** ReadAtOffset with a counted loop as its body decodes a `FollowedArray`. */
  lemma FollowArray<T>(b: Buffer, dec: nat -> Result<Step<T>>, width: nat, off: nat, count: int,
                       current: seq<T>, body: nat -> Result<Step<seq<T>>>)
    requires Advances(dec, width)
    requires off != 0 ==> body(off) == Array(dec, off, count)
    requires Follow(b, off, current, body).Ok?
    ensures FollowedArray(dec, width, off, count, current, Follow(b, off, current, body).value)
  {
    if off != 0 {
      ArrayLaidOut(dec, width, off, count);
    }
  }

  // StringWithId and GlitterEntry.

  /** The name is null exactly when its offset is absent; otherwise it is the run of non-zero
      bytes at the offset, ended by a zero. */
  lemma {:induction false} StringWithIdName(b: Buffer, p: nat)
    requires DecodeStringWithId(b, p).Ok?
    ensures var e := DecodeStringWithId(b, p).value.val;
            var off := OffsetAt(b, p);
            && e.id == Int64At(b, p + b.W())
            && (e.name.None? <==> off == 0)
            && (e.name.Some? ==> var s := e.name.value;
                                 off + |s| < |b.data| && b.data[off..off + |s|] == s && b.data[off + |s|] == 0
                                 && forall k :: 0 <= k < |s| ==> s[k] != 0)
  {
    var off := OffsetAt(b, p);
    if off != 0 {
      CStringFacts(b.data, off);
    }
  }

  /** GlitterEntry's second string keeps its null default when its offset is absent, and
      each string is read at its own offset. */
  lemma GlitterEntryStrings(b: Buffer, p: nat)
    requires DecodeGlitterEntry(b, p).Ok?
    ensures var e := DecodeGlitterEntry(b, p).value.val;
            var w := b.W();
            && Ok(e.name) == StringAtOffset(b, OffsetAt(b, p))
            && Ok(e.unkString) == StringAtOffset(b, OffsetAt(b, p + w))
            && (OffsetAt(b, p + w) == 0 ==> e.unkString == NewGlitterEntry.unkString == None)
            && e.unk == SByteAt(b, p + 2 * w)
  {
  }

  // SongEffect.

  /** Each array of a SongEffect is what ReadAtOffset decodes at its offset. */
  lemma SongEffectParts(b: Buffer, p: nat)
    requires DecodeSongEffect(b, p).Ok?
    ensures p + 8 + 2 * b.W() <= |b.data| && SByteAt(b, p) >= 0 && SByteAt(b, p + 1) >= 0
    ensures var e := DecodeSongEffect(b, p).value.val;
            var w := b.W();
            && Follow(b, OffsetAt(b, p + 8), [], StringWithIdsAt(b, SByteAt(b, p))) == Ok(e.auth3dEntries)
            && Follow(b, OffsetAt(b, p + 8 + w), [], GlitterEntriesAt(b, SByteAt(b, p + 1))) == Ok(e.glitterEntries)
  {
  }

  /** The auth3d count passes List.Capacity, so a non-absent array holds exactly that many
      records; an absent one stays empty. */
  lemma SongEffectAuth3ds(b: Buffer, p: nat)
    requires DecodeSongEffect(b, p).Ok?
    ensures SByteAt(b, p) >= 0
    ensures FollowedArray(StringWithIdAt(b), b.W() + 8, OffsetAt(b, p + 8), SByteAt(b, p), [],
                          DecodeSongEffect(b, p).value.val.auth3dEntries)
  {
    SongEffectParts(b, p);
    StringWithIdAdvances(b);
    FollowArray(b, StringWithIdAt(b), b.W() + 8, OffsetAt(b, p + 8), SByteAt(b, p), [],
                StringWithIdsAt(b, SByteAt(b, p)));
  }

  /** The same for the glitter count and array. */
  lemma SongEffectGlitters(b: Buffer, p: nat)
    requires DecodeSongEffect(b, p).Ok?
    ensures SByteAt(b, p + 1) >= 0
    ensures FollowedArray(GlitterEntryAt(b), 2 * b.W() + 1, OffsetAt(b, p + 8 + b.W()), SByteAt(b, p + 1), [],
                          DecodeSongEffect(b, p).value.val.glitterEntries)
  {
    SongEffectParts(b, p);
    GlitterEntryAdvances(b);
    FollowArray(b, GlitterEntryAt(b), 2 * b.W() + 1, OffsetAt(b, p + 8 + b.W()), SByteAt(b, p + 1), [],
                GlitterEntriesAt(b, SByteAt(b, p + 1)));
  }

  /** A negative count fails as soon as it is read, whatever follows it; and the auth3d
      array is decoded before the glitter offset is read, so its failure (an auth3d offset
      past the end gives InvalidOffset) wins over a glitter offset that does not fit. */
  lemma SongEffectOrder(b: Buffer, p: nat)
    ensures p + 1 <= |b.data| && SByteAt(b, p) < 0 ==>
              DecodeSongEffect(b, p) == Err(NegativeCapacity(SByteAt(b, p)))
    ensures p + 2 <= |b.data| && SByteAt(b, p) >= 0 && SByteAt(b, p + 1) < 0 ==>
              DecodeSongEffect(b, p) == Err(NegativeCapacity(SByteAt(b, p + 1)))
    ensures p + 8 + b.W() <= |b.data| && SByteAt(b, p) >= 0 && SByteAt(b, p + 1) >= 0 ==>
              var auth3d := Follow(b, OffsetAt(b, p + 8), [], StringWithIdsAt(b, SByteAt(b, p)));
              auth3d.Err? ==> DecodeSongEffect(b, p) == Err(auth3d.error)
    ensures p + 8 + b.W() <= |b.data| && SByteAt(b, p) >= 0 && SByteAt(b, p + 1) >= 0 ==>
              OffsetAt(b, p + 8) >= |b.data| ==> DecodeSongEffect(b, p) == Err(InvalidOffset(OffsetAt(b, p + 8)))
  {
  }

  // MotionEntry.

  /** An absent name offset leaves the name at its default ("", 0); the next-motion offset is
      kept as read and never followed. */
  lemma MotionEntryFields(b: Buffer, p: nat)
    requires DecodeMotionEntry(b, p).Ok?
    ensures var e := DecodeMotionEntry(b, p).value.val;
            && e.nextMotionOffset == OffsetAt(b, p + b.W())
            && (OffsetAt(b, p) == 0 ==> e.motionName == StringWithId(Some([]), 0))
            && (OffsetAt(b, p) != 0 ==> DecodeStringWithId(b, OffsetAt(b, p)).Ok?
                                        && e.motionName == DecodeStringWithId(b, OffsetAt(b, p)).value.val)
  {
  }

  /** The next-motion offset is never followed: the decode succeeds exactly when the name
      does, whatever the second offset holds, and an absent name gives the default name. */
  lemma MotionEntryNextNotFollowed(b: Buffer, p: nat)
    requires p + 2 * b.W() <= |b.data|
    ensures var name := Follow(b, OffsetAt(b, p), NewStringWithId, StringWithIdAt(b));
            && (DecodeMotionEntry(b, p).Ok? <==> name.Ok?)
            && (name.Ok? ==> DecodeMotionEntry(b, p)
                             == Ok(Step(MotionEntry(name.value, OffsetAt(b, p + b.W())), p + 2 * b.W())))
    ensures OffsetAt(b, p) == 0 ==>
              DecodeMotionEntry(b, p) == Ok(Step(MotionEntry(NewStringWithId, OffsetAt(b, p + b.W())), p + 2 * b.W()))
  {
  }

  // CharaEffAuth3d and CharaEffEntry.

  /** The eight bytes are kept as read; an absent entry or source offset leaves that
      StringWithId at its default, and a present one gives the StringWithId decoded there. */
  lemma CharaEffAuth3dEntries(b: Buffer, p: nat)
    requires DecodeCharaEffAuth3d(b, p).Ok?
    ensures var e := DecodeCharaEffAuth3d(b, p).value.val;
            && e.u00 == SByteAt(b, p) && e.u01 == SByteAt(b, p + 1)
            && e.u02 == SByteAt(b, p + 2) && e.u03 == SByteAt(b, p + 3)
            && e.u04 == SByteAt(b, p + 4) && e.u05 == SByteAt(b, p + 5)
            && e.u06 == SByteAt(b, p + 6) && e.u07 == SByteAt(b, p + 7)
    ensures var e := DecodeCharaEffAuth3d(b, p).value.val;
            var o := OffsetAt(b, p + 8);
            && (o == 0 ==> e.charaEffAuth3dEntry == StringWithId(Some([]), 0))
            && (o != 0 ==> DecodeStringWithId(b, o).Ok? && e.charaEffAuth3dEntry == DecodeStringWithId(b, o).value.val)
    ensures var e := DecodeCharaEffAuth3d(b, p).value.val;
            var o := OffsetAt(b, p + 8 + b.W());
            && (o == 0 ==> e.sourceAuth3dEntry == StringWithId(Some([]), 0))
            && (o != 0 ==> DecodeStringWithId(b, o).Ok? && e.sourceAuth3dEntry == DecodeStringWithId(b, o).value.val)
  {
  }

  /** The array of a CharaEffEntry is what ReadAtOffset decodes at its offset. */
  lemma CharaEffEntryParts(b: Buffer, p: nat)
    requires DecodeCharaEffEntry(b, p).Ok?
    ensures p + 3 + b.W() <= |b.data| && SByteAt(b, p + 1) >= 0
    ensures Follow(b, OffsetAt(b, p + 3), [], CharaEffAuth3dsAt(b, SByteAt(b, p + 1)))
            == Ok(DecodeCharaEffEntry(b, p).value.val.charaEffAuth3dEntries)
  {
  }

  /** The count passes List.Capacity, so a non-absent array holds exactly that many
      records. */
  lemma CharaEffEntryArray(b: Buffer, p: nat)
    requires DecodeCharaEffEntry(b, p).Ok?
    ensures var e := DecodeCharaEffEntry(b, p).value.val;
            && SByteAt(b, p + 1) >= 0
            && FollowedArray(CharaEffAuth3dAt(b), 8 + 2 * b.W(), OffsetAt(b, p + 3), SByteAt(b, p + 1), [],
                             e.charaEffAuth3dEntries)
  {
    CharaEffEntryParts(b, p);
    CharaEffAuth3dAdvances(b);
    FollowArray(b, CharaEffAuth3dAt(b), 8 + 2 * b.W(), OffsetAt(b, p + 3), SByteAt(b, p + 1), [],
                CharaEffAuth3dsAt(b, SByteAt(b, p + 1)));
  }

  /** A negative count fails as soon as it is read. */
  lemma CharaEffEntryCapacity(b: Buffer, p: nat)
    ensures p + 2 <= |b.data| && SByteAt(b, p + 1) < 0 ==>
              DecodeCharaEffEntry(b, p) == Err(NegativeCapacity(SByteAt(b, p + 1)))
  {
  }

  // ItemEntry.

  /** The fixed fields sit in read order (type, three bytes, int32, two offsets, four float
      words); an absent offset leaves the auth3d entry at ("", 0) and the node at "", and a
      present one gives the StringWithId and the zero-terminated string stored there. */
  lemma ItemEntryFields(b: Buffer, p: nat)
    requires DecodeItemEntry(b, p).Ok?
    ensures var e := DecodeItemEntry(b, p).value.val;
            var w := b.W();
            && e.itemType == SByteAt(b, p) && e.u131 == SByteAt(b, p + 1)
            && e.u132 == SByteAt(b, p + 2) && e.u133 == SByteAt(b, p + 3)
            && e.u134_137 == Int32At(b, p + 4)
            && e.x == UInt32At(b, p + 8 + 2 * w) && e.y == UInt32At(b, p + 12 + 2 * w)
            && e.z == UInt32At(b, p + 16 + 2 * w) && e.w == UInt32At(b, p + 20 + 2 * w)
            && (OffsetAt(b, p + 8) == 0 ==> e.auth3dEntry == StringWithId(Some([]), 0))
            && (OffsetAt(b, p + 8 + w) == 0 ==> e.node == [])
    ensures var e := DecodeItemEntry(b, p).value.val;
            var o := OffsetAt(b, p + 8);
            o != 0 ==> DecodeStringWithId(b, o).Ok? && e.auth3dEntry == DecodeStringWithId(b, o).value.val
    ensures var e := DecodeItemEntry(b, p).value.val;
            var n := OffsetAt(b, p + 8 + b.W());
            n != 0 ==> CString(b.data, n).Ok? && e.node == CString(b.data, n).value
  {
  }

  /** Both offsets are followed only once all fixed fields have been read: a fixed part that
      does not fit fails with OutOfBounds whatever the offsets hold. */
  lemma ItemEntryOrder(b: Buffer, p: nat)
    ensures p + 24 + 2 * b.W() > |b.data| ==> DecodeItemEntry(b, p) == Err(OutOfBounds)
  {
  }

  // CharaEntry.

  /** Each list of a CharaEntry is what ReadAtOffset decodes at the offset its header holds. */
  lemma CharaEntryParts(b: Buffer, p: nat)
    requires DecodeCharaEntry(b, p).Ok?
    ensures DecodeCharaEntryHeader(b, p).Ok?
    ensures var e := DecodeCharaEntry(b, p).value.val;
            var h := DecodeCharaEntryHeader(b, p).value.val;
            && Follow(b, h.chrEffOffset, [], CharaEffListAt(b, [])) == Ok(e.charaEffEntries)
            && Follow(b, h.motionOffset, [], MotionEntriesAt(b, h.motionCount)) == Ok(e.motionEntries)
            && Follow(b, h.auth3dOffset, [], StringWithIdsAt(b, h.auth3dCount)) == Ok(e.auth3dEntries)
            && Follow(b, h.itemOffset, [], ItemEntriesAt(b, h.itemCount)) == Ok(e.itemEntries)
            && Follow(b, h.glitterOffset, [], GlitterEntriesAt(b, h.glitterCount)) == Ok(e.glitterEntries)
  {
  }

  /** ReadAtOffset with the chr-eff body on an empty list: nothing for an absent offset,
      otherwise exactly the entry decoded at the offset. */
  lemma FollowEffect(b: Buffer, off: nat)
    requires Follow(b, off, [], CharaEffListAt(b, [])).Ok?
    ensures var xs := Follow(b, off, [], CharaEffListAt(b, [])).value;
            && (off == 0 ==> xs == [])
            && (off != 0 ==> |xs| == 1 && DecodeCharaEffEntry(b, off) == Ok(Step(xs[0], off + 3 + b.W())))
  {
    if off != 0 {
      CharaEffEntryConsumes(b, off);
    }
  }

  /** The chr-eff body adds one entry to the empty list: no entry for an absent offset,
      exactly the entry decoded at the offset otherwise. */
  lemma CharaEntryEffects(b: Buffer, p: nat)
    requires DecodeCharaEntry(b, p).Ok?
    ensures var e := DecodeCharaEntry(b, p).value.val;
            var off := OffsetAt(b, p + 8);
            && (off == 0 ==> e.charaEffEntries == [])
            && (off != 0 ==> |e.charaEffEntries| == 1
                             && DecodeCharaEffEntry(b, off) == Ok(Step(e.charaEffEntries[0], off + 3 + b.W())))
  {
    CharaEntryParts(b, p);
    FollowEffect(b, OffsetAt(b, p + 8));
  }

  /** The four counts do not pass List.Capacity: each non-absent array holds the count's
      records, and none when the count is negative. */
  lemma CharaEntryArrays(b: Buffer, p: nat)
    requires DecodeCharaEntry(b, p).Ok?
    ensures var e := DecodeCharaEntry(b, p).value.val;
            var w := b.W();
            && FollowedArray(MotionEntryAt(b), 2 * w, OffsetAt(b, p + 8 + w), SByteAt(b, p + 2), [], e.motionEntries)
            && FollowedArray(StringWithIdAt(b), w + 8, OffsetAt(b, p + 8 + 2 * w), SByteAt(b, p + 3), [],
                             e.auth3dEntries)
            && FollowedArray(ItemEntryAt(b), 24 + 2 * w, OffsetAt(b, p + 8 + 3 * w), SByteAt(b, p + 4), [],
                             e.itemEntries)
            && FollowedArray(GlitterEntryAt(b), 2 * w + 1, OffsetAt(b, p + 8 + 4 * w), SByteAt(b, p + 6), [],
                             e.glitterEntries)
  {
    CharaEntryParts(b, p);
    MotionEntryAdvances(b);
    StringWithIdAdvances(b);
    ItemEntryAdvances(b);
    GlitterEntryAdvances(b);
    var h := DecodeCharaEntryHeader(b, p).value.val;
    FollowArray(b, MotionEntryAt(b), 2 * b.W(), h.motionOffset, h.motionCount, [],
                MotionEntriesAt(b, h.motionCount));
    FollowArray(b, StringWithIdAt(b), b.W() + 8, h.auth3dOffset, h.auth3dCount, [],
                StringWithIdsAt(b, h.auth3dCount));
    FollowArray(b, ItemEntryAt(b), 24 + 2 * b.W(), h.itemOffset, h.itemCount, [],
                ItemEntriesAt(b, h.itemCount));
    FollowArray(b, GlitterEntryAt(b), 2 * b.W() + 1, h.glitterOffset, h.glitterCount, [],
                GlitterEntriesAt(b, h.glitterCount));
  }

  /** A negative count leaves its array empty rather than failing. */
  lemma CharaEntryNegativeCounts(b: Buffer, p: nat)
    requires DecodeCharaEntry(b, p).Ok?
    ensures var e := DecodeCharaEntry(b, p).value.val;
            && (SByteAt(b, p + 2) < 0 ==> e.motionEntries == [])
            && (SByteAt(b, p + 3) < 0 ==> e.auth3dEntries == [])
            && (SByteAt(b, p + 4) < 0 ==> e.itemEntries == [])
            && (SByteAt(b, p + 6) < 0 ==> e.glitterEntries == [])
  {
    CharaEntryArrays(b, p);
  }

  /** A negative count is never a failure: with negative counts and the other four offsets
      inside the buffer, the four arrays stay empty and the CharaEntry decodes when its
      chr-eff offset is absent. */
  lemma CharaEntryNegativeCountsDecode(b: Buffer, p: nat)
    requires p + 8 + 6 * b.W() <= |b.data|
    requires SByteAt(b, p + 2) < 0 && SByteAt(b, p + 3) < 0 && SByteAt(b, p + 4) < 0 && SByteAt(b, p + 6) < 0
    requires OffsetAt(b, p + 8) == 0
    requires OffsetAt(b, p + 8 + b.W()) < |b.data| && OffsetAt(b, p + 8 + 2 * b.W()) < |b.data|
    requires OffsetAt(b, p + 8 + 3 * b.W()) < |b.data| && OffsetAt(b, p + 8 + 4 * b.W()) < |b.data|
    ensures DecodeCharaEntry(b, p) == Ok(Step(NewCharaEntry, p + 8 + 6 * b.W()))
  {
    CharaEntryHeaderOffsets(b, p);
    CharaEntryNegativeHeader(b, p);
  }

  /** CharaEntryNegativeCountsDecode, stated on the fixed part's fields. */
  lemma CharaEntryNegativeHeader(b: Buffer, p: nat)
    requires DecodeCharaEntryHeader(b, p).Ok?
    requires var h := DecodeCharaEntryHeader(b, p).value.val;
             && h.motionCount < 0 && h.auth3dCount < 0 && h.itemCount < 0 && h.glitterCount < 0
             && h.chrEffOffset == 0 && h.motionOffset < |b.data| && h.auth3dOffset < |b.data|
             && h.itemOffset < |b.data| && h.glitterOffset < |b.data|
    ensures DecodeCharaEntry(b, p) == Ok(Step(NewCharaEntry, p + 8 + 6 * b.W()))
  {
    var h := DecodeCharaEntryHeader(b, p).value.val;
    assert Follow(b, h.motionOffset, [], MotionEntriesAt(b, h.motionCount)) == Ok([]);
    assert Follow(b, h.auth3dOffset, [], StringWithIdsAt(b, h.auth3dCount)) == Ok([]);
    assert Follow(b, h.itemOffset, [], ItemEntriesAt(b, h.itemCount)) == Ok([]);
    assert Follow(b, h.glitterOffset, [], GlitterEntriesAt(b, h.glitterCount)) == Ok([]);
  }

  /** With its fixed part in the buffer and the five followed offsets absent, a CharaEntry
      decodes to the constructor's empty lists, whatever its counts and its sixth offset
      hold. */
  lemma CharaEntryAbsentOffsets(b: Buffer, p: nat)
    requires DecodeCharaEntryHeader(b, p).Ok?
    requires var h := DecodeCharaEntryHeader(b, p).value.val;
             h.chrEffOffset == h.motionOffset == h.auth3dOffset == h.itemOffset == h.glitterOffset == 0
    ensures DecodeCharaEntry(b, p) == Ok(Step(NewCharaEntry, p + 8 + 6 * b.W()))
  {
  }

  /** The header decodes whenever the fixed part is in the buffer, with the offsets at 8, 8 + W,
      ..., 8 + 4W; so the lemma above applies to every in-bounds record whose five offsets
      are 0. */
  lemma CharaEntryHeaderOffsets(b: Buffer, p: nat)
    requires p + 8 + 6 * b.W() <= |b.data|
    ensures DecodeCharaEntryHeader(b, p).Ok?
    ensures var h := DecodeCharaEntryHeader(b, p).value.val;
            && h.chrEffOffset == OffsetAt(b, p + 8) && h.motionOffset == OffsetAt(b, p + 8 + b.W())
            && h.auth3dOffset == OffsetAt(b, p + 8 + 2 * b.W()) && h.itemOffset == OffsetAt(b, p + 8 + 3 * b.W())
            && h.glitterOffset == OffsetAt(b, p + 8 + 4 * b.W())
  {
  }

  // The song-effect section and the root.

  /** The count passes List.Capacity, so a non-absent array holds exactly that many
      records; the fields not in the section are those of `doc`. */
  lemma SongEffectSectionArray(b: Buffer, p: nat, doc: PVPerformerParameter)
    requires DecodeSongEffectSection(b, p, doc).Ok?
    ensures var d := DecodeSongEffectSection(b, p, doc).value.val;
            && SByteAt(b, p + 1) >= 0
            && FollowedArray(SongEffectAt(b), 8 + 2 * b.W(), OffsetAt(b, p + 8), SByteAt(b, p + 1), doc.songEffects,
                             d.songEffects)
            && d.charaEntries == doc.charaEntries && d.u20 == doc.u20
            && d.u25 == doc.u25 && d.u26 == doc.u26 && d.u27 == doc.u27
  {
    SongEffectAdvances(b);
    FollowArray(b, SongEffectAt(b), 8 + 2 * b.W(), OffsetAt(b, p + 8), SByteAt(b, p + 1), doc.songEffects,
                SongEffectsAt(b, SByteAt(b, p + 1)));
  }

  /** The root's chara-entry array is what ReadAtOffset decodes at its offset. */
  lemma RootParts(b: Buffer, p: nat)
    requires DecodePVPerformerParameter(b, p).Ok?
    ensures p + 8 + 3 * b.W() <= |b.data| && SByteAt(b, p + 4) >= 0
    ensures Follow(b, OffsetAt(b, p + 8 + b.W()), [], CharaEntriesAt(b, SByteAt(b, p + 4)))
            == Ok(DecodePVPerformerParameter(b, p).value.val.charaEntries)
  {
  }

  /** The chara-entry count passes List.Capacity, so a non-absent array holds exactly that
      many records; an absent one stays empty. */
  lemma RootCharaEntries(b: Buffer, p: nat)
    requires DecodePVPerformerParameter(b, p).Ok?
    ensures SByteAt(b, p + 4) >= 0
    ensures FollowedArray(CharaEntryAt(b), 8 + 6 * b.W(), OffsetAt(b, p + 8 + b.W()), SByteAt(b, p + 4), [],
                          DecodePVPerformerParameter(b, p).value.val.charaEntries)
  {
    RootParts(b, p);
    CharaEntryAdvances(b);
    FollowArray(b, CharaEntryAt(b), 8 + 6 * b.W(), OffsetAt(b, p + 8 + b.W()), SByteAt(b, p + 4), [],
                CharaEntriesAt(b, SByteAt(b, p + 4)));
  }

  /** The header's fields are stored as read; an absent song-effect section leaves its
      fields at their defaults. */
  lemma RootFields(b: Buffer, p: nat)
    requires DecodePVPerformerParameter(b, p).Ok?
    ensures var d := DecodePVPerformerParameter(b, p).value.val;
            && d.u20 == UInt32At(b, p)
            && d.u25 == SByteAt(b, p + 5) && d.u26 == SByteAt(b, p + 6) && d.u27 == SByteAt(b, p + 7)
    ensures var d := DecodePVPerformerParameter(b, p).value.val;
            OffsetAt(b, p + 8) == 0 ==>
              d.songEffects == [] && d.u40 == 0 && d.u42 == 0 && d.u43 == 0 && d.u44_47 == 0
  {
  }

  /** With its header in the buffer, a non-negative count and both followed offsets absent,
      the root decodes to empty lists and the header's stored fields, whatever its third
      offset holds. */
  lemma RootAbsentOffsets(b: Buffer, p: nat)
    requires p + 8 + 3 * b.W() <= |b.data| && SByteAt(b, p + 4) >= 0
    requires OffsetAt(b, p + 8) == 0 && OffsetAt(b, p + 8 + b.W()) == 0
    ensures DecodePVPerformerParameter(b, p)
            == Ok(Step(NewPVPerformerParameter.(u20 := UInt32At(b, p), u25 := SByteAt(b, p + 5),
                                                u26 := SByteAt(b, p + 6), u27 := SByteAt(b, p + 7)),
                       p + 8 + 3 * b.W()))
  {
  }

  /** The root's section fields are those the section body decodes at its offset, on the
      document built from the header. */
  lemma RootSectionParts(b: Buffer, p: nat)
    requires DecodePVPerformerParameter(b, p).Ok?
    ensures p + 8 + 3 * b.W() <= |b.data|
    ensures var d := DecodePVPerformerParameter(b, p).value.val;
            var off := OffsetAt(b, p + 8);
            var doc := NewPVPerformerParameter.(u20 := UInt32At(b, p), u25 := SByteAt(b, p + 5),
                                                u26 := SByteAt(b, p + 6), u27 := SByteAt(b, p + 7));
            off != 0 ==> && DecodeSongEffectSection(b, off, doc).Ok?
                         && DecodeSongEffectSection(b, off, doc).value.val.songEffects == d.songEffects
                         && DecodeSongEffectSection(b, off, doc).value.val.u40 == d.u40
                         && DecodeSongEffectSection(b, off, doc).value.val.u42 == d.u42
                         && DecodeSongEffectSection(b, off, doc).value.val.u43 == d.u43
                         && DecodeSongEffectSection(b, off, doc).value.val.u44_47 == d.u44_47
  {
  }

  /** A present song-effect section fills in the root: u40, u42, u43 and u44_47 are the
      section's bytes, the count passes List.Capacity, and SongEffects holds exactly that many
      records at stride 8 + 2W from the section's own offset, or none when that is absent. */
  lemma RootSongEffects(b: Buffer, p: nat)
    requires DecodePVPerformerParameter(b, p).Ok?
    ensures p + 8 + 3 * b.W() <= |b.data|
    ensures var d := DecodePVPerformerParameter(b, p).value.val;
            var off := OffsetAt(b, p + 8);
            off != 0 ==> && off + 8 + b.W() <= |b.data| && SByteAt(b, off + 1) >= 0
                         && d.u40 == SByteAt(b, off) && d.u42 == SByteAt(b, off + 2)
                         && d.u43 == SByteAt(b, off + 3) && d.u44_47 == Int32At(b, off + 4)
                         && FollowedArray(SongEffectAt(b), 8 + 2 * b.W(), OffsetAt(b, off + 8), SByteAt(b, off + 1),
                                          [], d.songEffects)
  {
    RootSectionParts(b, p);
    var off := OffsetAt(b, p + 8);
    if off != 0 {
      var doc := NewPVPerformerParameter.(u20 := UInt32At(b, p), u25 := SByteAt(b, p + 5),
                                          u26 := SByteAt(b, p + 6), u27 := SByteAt(b, p + 7));
      SongEffectSectionArray(b, off, doc);
    }
  }

  /** A negative chara-entry count fails as soon as it is read, and a negative song-effect
      count fails the section. */
  lemma RootCapacity(b: Buffer, p: nat, doc: PVPerformerParameter)
    ensures p + 5 <= |b.data| && SByteAt(b, p + 4) < 0 ==>
              DecodePVPerformerParameter(b, p) == Err(NegativeCapacity(SByteAt(b, p + 4)))
    ensures p + 2 <= |b.data| && SByteAt(b, p + 1) < 0 ==>
              DecodeSongEffectSection(b, p, doc) == Err(NegativeCapacity(SByteAt(b, p + 1)))
  {
  }

  // Enums.

  /** The enum fields are plain casts: each keeps the byte it was read from, so all 256
      values decode, and the byte 0xFF is the named "none" value. */
  lemma EnumsKeepTheirByte(b: Buffer, p: nat)
    ensures DecodeSongEffect(b, p).Ok? ==>
              ByteOf(DecodeSongEffect(b, p).value.val.parentId) == b.data[p + 2]
    ensures DecodeCharaEffEntry(b, p).Ok? ==>
              && ByteOf(DecodeCharaEffEntry(b, p).value.val.baseCharacter) == b.data[p]
              && ByteOf(DecodeCharaEffEntry(b, p).value.val.parentPerformerId) == b.data[p + 2]
    ensures DecodeItemEntry(b, p).Ok? ==>
              ByteOf(DecodeItemEntry(b, p).value.val.itemType) == b.data[p]
    ensures ByteOf(PerformerNone) == 0xFF && ByteOf(CharaNone) == 0xFF && ByteOf(ItemNone) == 0xFF
  {
    if p < |b.data| {
      SByteRoundTrip(b.data[p], 0);
    }
    if p + 2 < |b.data| {
      SByteRoundTrip(b.data[p + 2], 0);
    }
  }

  /** Every byte is a valid performer id: a SongEffect with non-negative counts and absent
      offsets decodes, whatever its performer byte holds. */
  lemma SongEffectAnyParent(b: Buffer, p: nat)
    requires p + 8 + 2 * b.W() <= |b.data| && SByteAt(b, p) >= 0 && SByteAt(b, p + 1) >= 0
    requires OffsetAt(b, p + 8) == 0 && OffsetAt(b, p + 8 + b.W()) == 0
    ensures DecodeSongEffect(b, p) == Ok(Step(SongEffect(SByteAt(b, p + 2), [], []), p + 8 + 2 * b.W()))
  {
  }

  /** Every byte is a valid character and performer: a CharaEffEntry with a non-negative
      count and an absent offset decodes, whatever its two enum bytes hold. */
  lemma CharaEffEntryAnyEnum(b: Buffer, p: nat)
    requires p + 3 + b.W() <= |b.data| && SByteAt(b, p + 1) >= 0 && OffsetAt(b, p + 3) == 0
    ensures DecodeCharaEffEntry(b, p) == Ok(Step(CharaEffEntry(SByteAt(b, p), SByteAt(b, p + 2), []), p + 3 + b.W()))
  {
  }

  /** Every byte is a valid item type: an ItemEntry with absent offsets decodes, whatever its
      type byte holds. */
  lemma ItemEntryAnyType(b: Buffer, p: nat)
    requires p + 24 + 2 * b.W() <= |b.data| && OffsetAt(b, p + 8) == 0 && OffsetAt(b, p + 8 + b.W()) == 0
    ensures DecodeItemEntry(b, p).Ok? && DecodeItemEntry(b, p).value.val.itemType == SByteAt(b, p)
  {
  }
}
