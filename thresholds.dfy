/** The fixed numbers the pipeline is tuned with. */
module Thresholds {

  /** Camera geometry, colour bounds and candidate filter thresholds. The
      colour bounds only drive the colour threshold step, which is outside
      this model; they are kept so the record is complete. */
  datatype Config = Config(
    fov: real, width: real, height: real,
    hMin: int, sMin: int, vMin: int,
    hMax: int, sMax: int, vMax: int,
    tPosUp: int, tPosLow: int, tNegUp: int, tNegLow: int,
    contourAreaMin: int,
    ratioMin: real, ratioMax: real)

  /** The values the pipeline starts with. */
  const Default: Config := Config(
    60.0, 432.0, 240.0,
    29, 90, 60,
    100, 255, 255,
    64, 43, -8, -81,
    90,
    2.2, 4.0)

  /** The angle mapping divides by the frame width. */
  predicate Usable(cfg: Config) { cfg.width > 0.0 }
}
