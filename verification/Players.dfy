/** A player as targeting sees it. */
module Players {
  import opened Geometry

  datatype Player = Player(id: nat, position: Vec3)
}
