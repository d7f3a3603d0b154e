/** The three account platforms a username is scoped to. */
module Constants {

  datatype Platform = Platform(name: string, code: string)

  const PlayStation := Platform("Playstation", "psn")
  const BattleNet := Platform("Battle.net", "battle")
  const Xbox := Platform("Xbox Live", "xbl")

  const Platforms := [PlayStation, BattleNet, Xbox]

}
