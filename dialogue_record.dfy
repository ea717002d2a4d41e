/** One row of the dialogue sheet, column by column. */
module DialogueRecord {
  /**
   * `DialogueData`: the integer ID and nine text columns in sheet order
   * (Command, CharacterSide, CharacterKey, LoadMode, HightLight, BG, CG,
   * Name, Dialogue).
   */
  datatype DialogueData = DialogueData(
    id: int,
    command: string,
    characterSide: string,
    characterKey: string,
    loadMode: string,
    highlight: string,
    bg: string,
    cg: string,
    name: string,
    dialogue: string)
}
