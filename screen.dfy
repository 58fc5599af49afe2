/** The fixed screen geometry shared by every part of the game. */
module Screen {
  /** Width of the window; obstacles appear at this x. */
  const ScreenWidth := 800
  /** The ground line: the y coordinate that grounded boxes have as their bottom. */
  const GroundHeight := 300
}
