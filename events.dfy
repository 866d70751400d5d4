/** The event record the analysis scripts read from their input tree, one per entry. */
module Events {

  datatype Option<+T> = None | Some(value: T)

  /** One tree entry: lepton, jet and b-tagged-jet multiplicities, the `mj12` mass and the
      branch of floating-point weights (`weight`, or `sys_pdf` in the BJ v3 script).
      Index 0 of `weights` is the nominal weight, the rest are PDF replicas. */
  datatype Event = Event(nleps: int, njets: int, nbm: int, mj12: real, weights: seq<real>)
}
