/** The two configuration choices shared by the screens. */
module Config {

  /** `'individual'` or `'dupla'` (two players, pass and play). */
  datatype Mode = Individual | Pair

  /** `'rapido'` (quick duel) or `'focado'` (focused practice on one category). */
  datatype GameType = Quick | Focused

  /** The one player name used in individual mode. */
  const SoloPlayerName: string := "Jogador"
}
