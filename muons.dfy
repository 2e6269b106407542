/** Data model of the muon-correction pass: the branches read from the input
    tree, the run configuration, and the external physics code the pass calls
    (the rochcor2012 calibration class and the invariant-mass helper). */
module Muons {

  /** Capacity of every per-muon buffer (`maxmuon`). */
  const MaxMuon: nat := 1000

  /** Track-layer count handed to the simulation correction (`ntrk`). */
  const Ntrk: real := 0.0
  /** Run option handed to the data correction (`runopt`). */
  const Runopt: real := 0.0
  /** Uncertainty-propagation handle handed to both corrections (`qter`). */
  const Qter: real := 1.0

  datatype Option<T> = None | Some(value: T)

  /** Kinematics of one muon as (pt, eta, phi, mass); `Float_t` is modelled by `real`. */
  datatype FourVec = FourVec(pt: real, eta: real, phi: real, mass: real)

  /** One entry of the input tree: `nMuon` and the parallel per-muon branches. */
  datatype Event = Event(
    nMuon: nat,
    pt: seq<real>,
    eta: seq<real>,
    phi: seq<real>,
    mass: seq<real>,
    charge: seq<int>)

  /** An entry as the tree delivers it: every per-muon branch holds exactly
      `nMuon` values, and `nMuon` fits the fixed-size buffers. */
  predicate WellFormed(e: Event)
  {
    && e.nMuon <= MaxMuon
    && |e.pt| == e.nMuon
    && |e.eta| == e.nMuon
    && |e.phi| == e.nMuon
    && |e.mass| == e.nMuon
    && |e.charge| == e.nMuon
  }

  /** The four-vector of muon `i` of an entry, as handed to `SetPtEtaPhiM`. */
  function Muon(e: Event, i: nat): FourVec
    requires WellFormed(e) && i < e.nMuon
  {
    FourVec(e.pt[i], e.eta[i], e.phi[i], e.mass[i])
  }

  /** The code the pass calls but does not own, as opaque functions:
      `momcorData(mu, charge, runopt, qter)` and `momcorMc(mu, charge, ntrk, qter)`
      return the corrected four-vector; `invMass(m1, m2)` is the mass of the
      summed four-vectors. */
  datatype Physics = Physics(
    momcorData: (FourVec, int, real, real) -> FourVec,
    momcorMc: (FourVec, int, real, real) -> FourVec,
    invMass: (FourVec, FourVec) -> real)

  /** The two flags of one run; both are fixed for the whole run. */
  datatype Config = Config(isData: bool, correctAll: bool)

  /** The entry count as the loop bound sees it: `GetEntries()` narrowed to a
      32-bit two's-complement `Int_t`, keeping the count modulo 2^32. */
  function EntryCountAsInt32(n: nat): (r: int)
    ensures -0x8000_0000 <= r < 0x8000_0000
    ensures (n - r) % 0x1_0000_0000 == 0
    ensures r <= n
  {
    var low := n % 0x1_0000_0000;
    if low < 0x8000_0000 then low else low - 0x1_0000_0000
  }

  /** How many entries a loop `for (k = 0; k < nEntries; k++)` reads from a
      tree of `n` entries: the narrowed count, or none when it is negative. */
  function EntriesRead(n: nat): (r: nat)
    ensures r <= n
  {
    var c := EntryCountAsInt32(n);
    if c > 0 then c else 0
  }

  /** Below 2^31 entries the narrowing loses nothing: every entry is read. */
  lemma EveryEntryReadBelowLimit(n: nat)
    requires n < 0x8000_0000
    ensures EntriesRead(n) == n
  {
    assert n % 0x1_0000_0000 == n;
  }

  /** From 2^31 up to 2^32 - 1 entries the narrowed count is negative and the
      loop reads no entry at all. */
  lemma NoEntryReadAtWrap(n: nat)
    requires 0x8000_0000 <= n < 0x1_0000_0000
    ensures EntriesRead(n) == 0
  {
    assert n % 0x1_0000_0000 == n;
  }
}
