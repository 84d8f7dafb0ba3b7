/** The decoded records of a PV performer parameter file, and the values their constructors
    give them before `Read` fills them in. */
module Records {
  import opened Bytes
  import opened Results

  /** A performer slot. An enum over `sbyte`: a cast keeps any byte value, named or not. */
  type PerformerId = SByte
  const PerformerNone: PerformerId := -1
  const Performer1P: PerformerId := 0
  const Performer2P: PerformerId := 1
  const Performer3P: PerformerId := 2
  const Performer4P: PerformerId := 3

  /** A character. An enum over `sbyte`. */
  type CharacterIndex = SByte
  const CharaNone: CharacterIndex := -1
  const CharaMiku: CharacterIndex := 0
  const CharaRin: CharacterIndex := 1
  const CharaLen: CharacterIndex := 2
  const CharaLuka: CharacterIndex := 3
  const CharaNeru: CharacterIndex := 4
  const CharaHaku: CharacterIndex := 5
  const CharaKaito: CharacterIndex := 6
  const CharaMeiko: CharacterIndex := 7
  const CharaSakine: CharacterIndex := 8
  const CharaTeto: CharacterIndex := 9
  const CharaExtra: CharacterIndex := 10

  /** The kind of an attached item. An enum over `sbyte`. */
  type CharacterItemType = SByte
  const ItemNone: CharacterItemType := -1
  const ItemObj: CharacterItemType := 0
  const ItemObjHrc: CharacterItemType := 1

  /** A name: the bytes before the terminator, or `None` for a null string. */
  type Text = Option<seq<byte>>

  /** The raw bits of a 32-bit float. */
  type FloatBits = UInt32

  datatype StringWithId = StringWithId(name: Text, id: Int64)

  const NewStringWithId := StringWithId(Some([]), 0)

  datatype GlitterEntry = GlitterEntry(name: Text, unkString: Text, unk: SByte)

  const NewGlitterEntry := GlitterEntry(Some([]), None, 0)

  datatype SongEffect = SongEffect(
    parentId: PerformerId,
    auth3dEntries: seq<StringWithId>,
    glitterEntries: seq<GlitterEntry>)

  const NewSongEffect := SongEffect(PerformerNone, [], [])

  datatype MotionEntry = MotionEntry(motionName: StringWithId, nextMotionOffset: nat)

  const NewMotionEntry := MotionEntry(NewStringWithId, 0)

  datatype CharaEffAuth3d = CharaEffAuth3d(
    u00: SByte, u01: SByte, u02: SByte, u03: SByte,
    u04: SByte, u05: SByte, u06: SByte, u07: SByte,
    charaEffAuth3dEntry: StringWithId,
    sourceAuth3dEntry: StringWithId)

  const NewCharaEffAuth3d := CharaEffAuth3d(0, 0, 0, 0, 0, 0, 0, 0, NewStringWithId, NewStringWithId)

  datatype CharaEffEntry = CharaEffEntry(
    baseCharacter: CharacterIndex,
    parentPerformerId: PerformerId,
    charaEffAuth3dEntries: seq<CharaEffAuth3d>)

  const NewCharaEffEntry := CharaEffEntry(CharaMiku, PerformerNone, [])

  datatype ItemEntry = ItemEntry(
    itemType: CharacterItemType,
    u131: SByte, u132: SByte, u133: SByte,
    u134_137: Int32,
    x: FloatBits, y: FloatBits, z: FloatBits, w: FloatBits,
    auth3dEntry: StringWithId,
    node: seq<byte>)

  const NewItemEntry := ItemEntry(ItemNone, 0, 0, 0, 0, 0, 0, 0, 0, NewStringWithId, [])

  datatype CharaEntry = CharaEntry(
    charaEffEntries: seq<CharaEffEntry>,
    motionEntries: seq<MotionEntry>,
    auth3dEntries: seq<StringWithId>,
    itemEntries: seq<ItemEntry>,
    glitterEntries: seq<GlitterEntry>)

  const NewCharaEntry := CharaEntry([], [], [], [], [])

  /** The whole file. */
  datatype PVPerformerParameter = PVPerformerParameter(
    charaEntries: seq<CharaEntry>,
    songEffects: seq<SongEffect>,
    u20: UInt32,
    u25: SByte, u26: SByte, u27: SByte,
    u40: SByte, u42: SByte, u43: SByte,
    u44_47: Int32)

  const NewPVPerformerParameter := PVPerformerParameter([], [], 0, 0, 0, 0, 0, 0, 0, 0)
}
